/**
 The way of a share from the gateway to Core and back: gateway store
 (crates/meshmine-gateway/src/lib.rs), operator spool and client
 (crates/meshmine-core-link/src/spool.rs, client.rs) and Core's receipt journal
 (crates/meshmine-core-link/src/admission.rs). Each action is one atomic write
 of one of the three processes. A crash or a reconnection writes nothing, and
 messages may be lost, repeated and delayed: any envelope ever made may reach
 Core at any time, and any receipt Core ever sent may reach the client. Submit
 calls of the client do not overlap: the absence of a receipt and the write of
 an envelope are one step.
 */
module Pipeline {
  import opened GatewayStore
  import opened Spool
  import opened Traces
  import G = GatewayStore
  import S = Spool
  import GatewayRun

  datatype World = World(
    gateway: Store, spool: S.Spool, log: seq<Issued>, journal: map<Hash, Receipt>, sent: set<Receipt>,
    accepted: map<Key, Capture>)

  const START: World := World(G.EMPTY, S.FRESH, [], map[], {}, map[])

  datatype Action =
    | AtGateway(gatewayWrite: G.Write)
    | AtSpool(spoolWrite: S.Write)
    | AtCore(envelope: Envelope, decided: Receipt)

  /** The envelope carries this capture. */
  predicate Carries(e: Envelope, c: Capture) {
    && e.assignment == c.jobId && e.receivedMs == c.receivedMs && e.ntime == c.header.time
    && e.extraNonce == c.header.extraNonce && e.nonce == c.header.nonce && e.shareHash == c.shareHash
  }

  /**
   The gateway replaces a capture by its tombstone only after the client returned
   its receipt from the spool.
   */
  predicate GatewayMay(w: World, write: G.Write, rules: Rules) {
    G.Enabled(w.gateway, write, rules) && (write.Acknowledge? ==> write.key in w.spool.receipts)
  }

  /** Envelopes are made for pending captures, receipts come from Core. */
  predicate SpoolMay(w: World, write: S.Write, codec: Codec) {
    && S.Enabled(w.spool, write, codec)
    && (write.PutEnvelope? ==> write.key in w.gateway.captures
                               && Carries(write.envelope, w.gateway.captures[write.key]))
    && (write.PutReceipt? ==> write.receipt in w.sent)
  }

  /** Core answers an envelope it receives: with the journaled receipt, or with a new one it journals first. */
  predicate CoreMay(w: World, e: Envelope, decided: Receipt, codec: Codec) {
    && (exists i :: 0 <= i < |w.log| && w.log[i].envelope == e)
    && Answers(e, decided, codec)
    && (codec.id(e) in w.journal ==> decided == w.journal[codec.id(e)])
  }

  predicate Step(w: World, action: Action, x: World, rules: Rules, codec: Codec) {
    match action
    case AtGateway(write) =>
      GatewayMay(w, write, rules) &&
      x == w.(gateway := G.Apply(w.gateway, write), accepted := AcceptedAfter(w.accepted, write))
    case AtSpool(write) =>
      SpoolMay(w, write, codec) && x == w.(spool := S.Apply(w.spool, write, codec), log := S.LogAfter(w.log, write))
    case AtCore(e, decided) =>
      CoreMay(w, e, decided, codec) && x == w.(journal := w.journal[codec.id(e) := decided], sent := w.sent + {decided})
  }

  // ---- What every world satisfies ----

  /** Core sends only receipts from its journal. */
  predicate SentOk(journal: map<Hash, Receipt>, sent: set<Receipt>) {
    forall r :: r in sent ==> r.envelopeId in journal && journal[r.envelopeId] == r
  }

  predicate ReceiptsOk(journal: map<Hash, Receipt>, receipts: map<Key, Receipt>) {
    forall k :: k in receipts ==> receipts[k].envelopeId in journal && journal[receipts[k].envelopeId] == receipts[k]
  }

  /** Every tombstone stands for a recorded receipt. */
  predicate TombstonesAnswered(tombstones: map<Key, nat>, receipts: map<Key, Receipt>) {
    forall k :: k in tombstones ==> k in receipts
  }

  /** No accepted capture is lost: it is pending at the gateway, or answered. */
  predicate NothingLost(accepted: map<Key, Capture>, captures: map<Key, Capture>, receipts: map<Key, Receipt>) {
    forall k :: k in accepted ==> k in captures || k in receipts
  }

  predicate PendingAccepted(accepted: map<Key, Capture>, captures: map<Key, Capture>) {
    forall k :: k in captures ==> k in accepted && accepted[k] == captures[k]
  }

  predicate LogAccepted(accepted: map<Key, Capture>, log: seq<Issued>) {
    forall i :: 0 <= i < |log| ==> log[i].key in accepted && Carries(log[i].envelope, accepted[log[i].key])
  }

  ghost predicate Genuine(c: Capture, rules: Rules) { exists job :: rules.capture(c, job) }

  ghost predicate RememberedAs(k: Key, c: Capture, s: Store, rules: Rules) {
    rules.key(c) == k && Genuine(c, rules) && GatewayRun.Remembered(s, k, c.jobId)
  }

  /** The gateway still refuses every key it accepted. */
  ghost predicate AllRemembered(accepted: map<Key, Capture>, s: Store, rules: Rules) {
    forall k :: k in accepted ==> RememberedAs(k, accepted[k], s, rules)
  }

  /** The gateway's half. */
  ghost predicate GatewayPart(w: World, rules: Rules) {
    Sound(w.gateway, rules) && AllRemembered(w.accepted, w.gateway, rules)
      && PendingAccepted(w.accepted, w.gateway.captures)
  }

  predicate CorePart(w: World) { SentOk(w.journal, w.sent) && ReceiptsOk(w.journal, w.spool.receipts) }

  predicate LinkPart(w: World) {
    && TombstonesAnswered(w.gateway.tombstones, w.spool.receipts)
    && NothingLost(w.accepted, w.gateway.captures, w.spool.receipts) && LogAccepted(w.accepted, w.log)
  }

  ghost predicate Inv(w: World, rules: Rules, codec: Codec) {
    GatewayPart(w, rules) && SpoolOk(w.spool, w.log, codec) && CorePart(w) && LinkPart(w)
  }

  lemma StartInv(rules: Rules, codec: Codec)
    ensures Inv(START, rules, codec)
  {
    GatewayRun.EmptySound(rules);
    FreshOk(codec);
  }

  // ---- Gateway writes ----

  /** What a gateway write does to captures and tombstones. */
  lemma GatewayMoves(s: Store, write: G.Write, rules: Rules)
    requires G.Enabled(s, write, rules)
    ensures var t := G.Apply(s, write);
            && (forall k :: k in t.captures ==> k in s.captures || write == Accept(k, t.captures[k]))
            && (forall k :: k in s.captures ==> k in t.captures || write == Acknowledge(k))
            && (forall k :: k in t.tombstones ==> k in s.tombstones || write == Acknowledge(k))
            && (write.Accept? ==> write.key in t.captures)
  {
  }

  lemma OtherJobRefused(s: Store, key: Key, first: Capture, c: Capture, rules: Rules)
    requires GatewayRun.KeysNameJobs(rules) && rules.key(first) == key && Genuine(first, rules)
             && first.jobId != c.jobId
    ensures !MayAccept(s, key, c, rules)
  {
    var job :| rules.capture(first, job);
    assert forall j :: rules.capture(c, j) ==> rules.key(c) != key;
  }

  lemma AcceptedRefused(accepted: map<Key, Capture>, s: Store, key: Key, c: Capture, rules: Rules)
    requires Sound(s, rules) && AllRemembered(accepted, s, rules) && GatewayRun.KeysNameJobs(rules) && key in accepted
    ensures !MayAccept(s, key, c, rules)
  {
    assert RememberedAs(key, accepted[key], s, rules);
    if accepted[key].jobId == c.jobId {
      GatewayRun.RememberedRefused(s, key, c, rules);
    } else {
      OtherJobRefused(s, key, accepted[key], c, rules);
    }
  }

  lemma RememberedAfter(accepted: map<Key, Capture>, s: Store, write: G.Write, rules: Rules)
    requires Sound(s, rules) && AllRemembered(accepted, s, rules) && G.Enabled(s, write, rules)
    ensures AllRemembered(accepted, G.Apply(s, write), rules)
  {
    forall k | k in accepted ensures RememberedAs(k, accepted[k], G.Apply(s, write), rules) {
      assert RememberedAs(k, accepted[k], s, rules);
      GatewayRun.RememberedKept(s, write, rules, k, accepted[k].jobId);
    }
  }

  lemma RememberedAccept(s: Store, key: Key, c: Capture, rules: Rules)
    requires MayAccept(s, key, c, rules)
    ensures RememberedAs(key, c, Accepted(s, key, c), rules)
  {
    assert rules.capture(c, s.jobs[c.sequence]);
    GatewayRun.AcceptRemembers(s, key, c, rules);
  }

  function AcceptedAfter(accepted: map<Key, Capture>, write: G.Write): map<Key, Capture> {
    if write.Accept? then accepted[write.key := write.capture] else accepted
  }

  lemma RememberedWrite(accepted: map<Key, Capture>, s: Store, write: G.Write, rules: Rules)
    requires Sound(s, rules) && AllRemembered(accepted, s, rules) && G.Enabled(s, write, rules)
    ensures AllRemembered(AcceptedAfter(accepted, write), G.Apply(s, write), rules)
  {
    RememberedAfter(accepted, s, write, rules);
    if write.Accept? {
      RememberedAccept(s, write.key, write.capture, rules);
    }
  }

  lemma PendingWrite(accepted: map<Key, Capture>, s: Store, write: G.Write, rules: Rules)
    requires PendingAccepted(accepted, s.captures) && G.Enabled(s, write, rules)
    ensures PendingAccepted(AcceptedAfter(accepted, write), G.Apply(s, write).captures)
  {
  }

  lemma GatewayPartKept(w: World, write: G.Write, x: World, rules: Rules, codec: Codec)
    requires GatewayPart(w, rules) && Step(w, AtGateway(write), x, rules, codec)
    ensures GatewayPart(x, rules)
  {
    WriteKeepsSound(w.gateway, write, rules);
    RememberedWrite(w.accepted, w.gateway, write, rules);
    PendingWrite(w.accepted, w.gateway, write, rules);
  }

  lemma LinkWrite(
      accepted: map<Key, Capture>, s: Store, write: G.Write, rules: Rules, receipts: map<Key, Receipt>,
      log: seq<Issued>)
    requires G.Enabled(s, write, rules) && (write.Acknowledge? ==> write.key in receipts)
             && (write.Accept? ==> write.key !in accepted)
    requires TombstonesAnswered(s.tombstones, receipts) && NothingLost(accepted, s.captures, receipts)
             && LogAccepted(accepted, log)
    ensures TombstonesAnswered(G.Apply(s, write).tombstones, receipts)
    ensures NothingLost(AcceptedAfter(accepted, write), G.Apply(s, write).captures, receipts)
    ensures LogAccepted(AcceptedAfter(accepted, write), log)
  {
    GatewayMoves(s, write, rules);
  }

  lemma LinkKept(w: World, write: G.Write, x: World, rules: Rules, codec: Codec)
    requires GatewayPart(w, rules) && LinkPart(w) && GatewayRun.KeysNameJobs(rules)
             && Step(w, AtGateway(write), x, rules, codec)
    ensures LinkPart(x)
  {
    if write.Accept? && write.key in w.accepted {
      AcceptedRefused(w.accepted, w.gateway, write.key, write.capture, rules);
    }
    LinkWrite(w.accepted, w.gateway, write, rules, w.spool.receipts, w.log);
  }

  lemma GatewayKeeps(w: World, write: G.Write, x: World, rules: Rules, codec: Codec)
    requires Inv(w, rules, codec) && GatewayRun.KeysNameJobs(rules) && Step(w, AtGateway(write), x, rules, codec)
    ensures Inv(x, rules, codec)
  {
    GatewayPartKept(w, write, x, rules, codec);
    LinkKept(w, write, x, rules, codec);
    assert SpoolOk(x.spool, x.log, codec);
  }

  // ---- Spool writes ----

  lemma SpoolMoves(s: S.Spool, write: S.Write, codec: Codec)
    requires S.Enabled(s, write, codec)
    ensures var t := S.Apply(s, write, codec);
            && (forall k :: k in s.receipts ==> k in t.receipts && t.receipts[k] == s.receipts[k])
            && (forall k :: k in t.receipts ==>
                (k in s.receipts && t.receipts[k] == s.receipts[k]) || write == PutReceipt(k, t.receipts[k]))
  {
    forall k | k in s.receipts
      ensures k in S.Apply(s, write, codec).receipts && S.Apply(s, write, codec).receipts[k] == s.receipts[k]
    {
      WriteStable(s, write, codec, k);
    }
  }

  lemma SpoolCore(w: World, write: S.Write, x: World, rules: Rules, codec: Codec)
    requires CorePart(w) && Step(w, AtSpool(write), x, rules, codec)
    ensures CorePart(x)
  {
    SpoolMoves(w.spool, write, codec);
  }

  lemma LogWrite(accepted: map<Key, Capture>, captures: map<Key, Capture>, log: seq<Issued>, write: S.Write)
    requires LogAccepted(accepted, log) && PendingAccepted(accepted, captures)
    requires write.PutEnvelope? ==> write.key in captures && Carries(write.envelope, captures[write.key])
    ensures LogAccepted(accepted, S.LogAfter(log, write))
  {
  }

  lemma SpoolLink(w: World, write: S.Write, x: World, rules: Rules, codec: Codec)
    requires LinkPart(w) && PendingAccepted(w.accepted, w.gateway.captures) && Step(w, AtSpool(write), x, rules, codec)
    ensures LinkPart(x)
  {
    SpoolMoves(w.spool, write, codec);
    LogWrite(w.accepted, w.gateway.captures, w.log, write);
  }

  lemma SpoolKeeps(w: World, write: S.Write, x: World, rules: Rules, codec: Codec)
    requires Inv(w, rules, codec) && Step(w, AtSpool(write), x, rules, codec)
    ensures Inv(x, rules, codec)
  {
    WriteKeepsSpool(w.spool, w.log, write, codec);
    SpoolCore(w, write, x, rules, codec);
    SpoolLink(w, write, x, rules, codec);
    assert GatewayPart(x, rules);
  }

  // ---- Core ----

  lemma JournalGrows(w: World, e: Envelope, decided: Receipt, codec: Codec)
    requires CorePart(w) && CoreMay(w, e, decided, codec)
    ensures SentOk(w.journal[codec.id(e) := decided], w.sent + {decided})
    ensures ReceiptsOk(w.journal[codec.id(e) := decided], w.spool.receipts)
  {
    var journal := w.journal[codec.id(e) := decided];
    forall h | h in w.journal ensures h in journal && journal[h] == w.journal[h] {
    }
  }

  lemma CoreKeeps(w: World, e: Envelope, decided: Receipt, x: World, rules: Rules, codec: Codec)
    requires Inv(w, rules, codec) && Step(w, AtCore(e, decided), x, rules, codec)
    ensures Inv(x, rules, codec)
  {
    JournalGrows(w, e, decided, codec);
    assert SpoolOk(x.spool, x.log, codec) && GatewayPart(x, rules) && LinkPart(x);
  }

  lemma StepKeepsInv(w: World, action: Action, x: World, rules: Rules, codec: Codec)
    requires Inv(w, rules, codec) && GatewayRun.KeysNameJobs(rules) && Step(w, action, x, rules, codec)
    ensures Inv(x, rules, codec)
  {
    match action {
      case AtGateway(write) => GatewayKeeps(w, write, x, rules, codec);
      case AtSpool(write) => SpoolKeeps(w, write, x, rules, codec);
      case AtCore(e, decided) => CoreKeeps(w, e, decided, x, rules, codec);
    }
  }

  // ---- The writes of one process, as steps ----

  function AcceptedAll(accepted: map<Key, Capture>, ws: seq<G.Write>): map<Key, Capture> {
    if ws == [] then accepted else AcceptedAfter(AcceptedAll(accepted, ws[..|ws| - 1]), ws[|ws| - 1])
  }

  function GatewayActions(ws: seq<G.Write>): seq<Action> { seq(|ws|, k requires 0 <= k < |ws| => AtGateway(ws[k])) }

  function GatewayWorlds(w: World, stores: seq<Store>, ws: seq<G.Write>): seq<World>
    requires |stores| == |ws| + 1
  {
    seq(|stores|, k requires 0 <= k < |stores| => w.(gateway := stores[k],
                                                     accepted := AcceptedAll(w.accepted, ws[..k])))
  }

  /** A run of the gateway that acknowledges only answered keys is a run of the whole. */
  lemma GatewayTrace(w: World, stores: seq<Store>, ws: seq<G.Write>, rules: Rules, codec: Codec)
    requires GatewayRun.Run(stores, ws, rules) && stores[0] == w.gateway
    requires forall k :: 0 <= k < |ws| && ws[k].Acknowledge? ==> ws[k].key in w.spool.receipts
    ensures IsTrace(GatewayWorlds(w, stores, ws), GatewayActions(ws), StepOf(rules, codec))
    ensures GatewayWorlds(w, stores, ws)[0] == w
    ensures GatewayWorlds(w, stores, ws)[|ws|] == w.(gateway := stores[|ws|], accepted := AcceptedAll(w.accepted, ws))
  {
    var worlds, actions := GatewayWorlds(w, stores, ws), GatewayActions(ws);
    forall k | 0 <= k < |actions| ensures StepOf(rules, codec)(worlds[k], actions[k], worlds[k + 1]) {
      GatewayRun.RunStep(stores, ws, rules, k);
      AcceptedNext(w.accepted, ws, k);
      GatewayStep(w, stores[k], ws[k], stores[k + 1], AcceptedAll(w.accepted, ws[..k]), rules, codec);
    }
    assert ws[..|ws|] == ws;
  }

  lemma AcceptedNext(accepted: map<Key, Capture>, ws: seq<G.Write>, k: nat)
    requires k < |ws|
    ensures AcceptedAll(accepted, ws[..k + 1]) == AcceptedAfter(AcceptedAll(accepted, ws[..k]), ws[k])
  {
    assert ws[..k + 1][..k] == ws[..k];
  }

  lemma GatewayStep(
      w: World, s: Store, write: G.Write, t: Store, accepted: map<Key, Capture>, rules: Rules, codec: Codec)
    requires GatewayRun.Step(s, write, t, rules) && (write.Acknowledge? ==> write.key in w.spool.receipts)
    ensures Step(w.(gateway := s, accepted := accepted), AtGateway(write),
                 w.(gateway := t, accepted := AcceptedAfter(accepted, write)), rules, codec)
  {
  }

  // ---- Whole runs ----

  function StepOf(rules: Rules, codec: Codec): (World, Action, World) -> bool {
    (w: World, action: Action, x: World) => Step(w, action, x, rules, codec)
  }

  ghost predicate Run(worlds: seq<World>, actions: seq<Action>, rules: Rules, codec: Codec) {
    IsTrace(worlds, actions, StepOf(rules, codec)) && worlds[0] == START
  }

  ghost function InvFor(rules: Rules, codec: Codec): World -> bool { (w: World) => Inv(w, rules, codec) }

  lemma RunKeepsInv(worlds: seq<World>, actions: seq<Action>, k: nat, rules: Rules, codec: Codec)
    requires Run(worlds, actions, rules, codec) && GatewayRun.KeysNameJobs(rules) && k < |worlds|
    ensures Inv(worlds[k], rules, codec)
  {
    StartInv(rules, codec);
    assert Preserved(StepOf(rules, codec), InvFor(rules, codec)) by {
      forall w, action, x | InvFor(rules, codec)(w) && StepOf(rules, codec)(w, action, x)
        ensures InvFor(rules, codec)(x)
      {
        StepKeepsInv(w, action, x, rules, codec);
      }
    }
    Forever(worlds, actions, StepOf(rules, codec), InvFor(rules, codec), 0, k);
  }

  lemma RunStep(worlds: seq<World>, actions: seq<Action>, k: nat, rules: Rules, codec: Codec)
    requires Run(worlds, actions, rules, codec) && k < |actions|
    ensures Step(worlds[k], actions[k], worlds[k + 1], rules, codec)
  {
    assert StepOf(rules, codec)(worlds[k], actions[k], worlds[k + 1]);
  }

  /** The share is answered: one envelope carries it, and the spool and Core hold the same receipt for it. */
  predicate Answered(w: World, key: Key, c: Capture, codec: Codec) {
    && key in w.spool.receipts
    && exists i :: 0 <= i < |w.log| && AnsweredBy(w, key, c, w.log[i], codec)
  }

  predicate AnsweredBy(w: World, key: Key, c: Capture, entry: Issued, codec: Codec)
    requires key in w.spool.receipts
  {
    && entry.key == key && Carries(entry.envelope, c) && Answers(entry.envelope, w.spool.receipts[key], codec)
    && codec.id(entry.envelope) in w.journal && w.journal[codec.id(entry.envelope)] == w.spool.receipts[key]
  }

  lemma ReceiptIsAnswer(w: World, key: Key, rules: Rules, codec: Codec)
    requires Inv(w, rules, codec) && key in w.spool.receipts
    ensures key in w.accepted && Answered(w, key, w.accepted[key], codec)
  {
    assert Logged(w.log, key);
    var i :| 0 <= i < |w.log| && w.log[i].key == key;
    assert Held(w.spool.envelopes, w.spool.receipts, w.log[i], codec);
    assert AnsweredBy(w, key, w.accepted[key], w.log[i], codec);
  }

  /** In every world of every run, a tombstone means that the capture is answered, by exactly one envelope. */
  lemma TombstoneMeansAnswered(worlds: seq<World>, actions: seq<Action>, k: nat, key: Key, rules: Rules, codec: Codec)
    requires Run(worlds, actions, rules, codec) && GatewayRun.KeysNameJobs(rules) && k < |worlds|
    requires key in worlds[k].gateway.tombstones
    ensures key in worlds[k].accepted && Answered(worlds[k], key, worlds[k].accepted[key], codec)
    ensures forall i, j :: 0 <= i < |worlds[k].log| && 0 <= j < |worlds[k].log|
                           && worlds[k].log[i].key == key == worlds[k].log[j].key ==>
              i == j
  {
    RunKeepsInv(worlds, actions, k, rules, codec);
    ReceiptIsAnswer(worlds[k], key, rules, codec);
  }

  // ---- What stays for good ----

  lemma AcceptedStays(accepted: map<Key, Capture>, s: Store, write: G.Write, rules: Rules, key: Key)
    requires Sound(s, rules) && AllRemembered(accepted, s, rules) && GatewayRun.KeysNameJobs(rules) && key in accepted
    requires G.Enabled(s, write, rules)
    ensures AcceptedAfter(accepted, write)[key] == accepted[key]
  {
    if write.Accept? && write.key == key {
      AcceptedRefused(accepted, s, key, write.capture, rules);
    }
  }

  lemma AcceptedKept(w: World, action: Action, x: World, rules: Rules, codec: Codec, key: Key)
    requires GatewayPart(w, rules) && GatewayRun.KeysNameJobs(rules) && Step(w, action, x, rules, codec)
             && key in w.accepted
    ensures key in x.accepted && x.accepted[key] == w.accepted[key]
  {
    if action.AtGateway? {
      AcceptedStays(w.accepted, w.gateway, action.gatewayWrite, rules, key);
    }
  }

  function AcceptedIs(key: Key, c: Capture): World -> bool { (w: World) => key in w.accepted && w.accepted[key] == c }

  ghost function Both(p: World -> bool, q: World -> bool): World -> bool { (w: World) => p(w) && q(w) }

  lemma AcceptedLater(worlds: seq<World>, actions: seq<Action>, i: nat, k: nat, rules: Rules, codec: Codec)
    requires Run(worlds, actions, rules, codec) && GatewayRun.KeysNameJobs(rules) && i < k < |worlds|
    requires actions[i].AtGateway? && actions[i].gatewayWrite.Accept?
    ensures var write := actions[i].gatewayWrite;
            write.key in worlds[k].accepted && worlds[k].accepted[write.key] == write.capture
  {
    var write := actions[i].gatewayWrite;
    var inv := Both(InvFor(rules, codec), AcceptedIs(write.key, write.capture));
    assert Preserved(StepOf(rules, codec), inv) by {
      forall w, action, x | inv(w) && StepOf(rules, codec)(w, action, x) ensures inv(x) {
        StepKeepsInv(w, action, x, rules, codec);
        AcceptedKept(w, action, x, rules, codec, write.key);
      }
    }
    RunStep(worlds, actions, i, rules, codec);
    RunKeepsInv(worlds, actions, i + 1, rules, codec);
    Forever(worlds, actions, StepOf(rules, codec), inv, i + 1, k);
  }

  /**
   No accepted share is ever lost or altered, in any run with crashes, restarts and a lossy
   network: at every later moment it is pending at the gateway as it was accepted, or answered.
   */
  lemma ShareAccounted(worlds: seq<World>, actions: seq<Action>, i: nat, k: nat, rules: Rules, codec: Codec)
    requires Run(worlds, actions, rules, codec) && GatewayRun.KeysNameJobs(rules) && i < k < |worlds|
    requires actions[i].AtGateway? && actions[i].gatewayWrite.Accept?
    ensures var write := actions[i].gatewayWrite;
            || (write.key in worlds[k].gateway.captures && worlds[k].gateway.captures[write.key] == write.capture)
            || Answered(worlds[k], write.key, write.capture, codec)
  {
    var write := actions[i].gatewayWrite;
    AcceptedLater(worlds, actions, i, k, rules, codec);
    RunKeepsInv(worlds, actions, k, rules, codec);
    if write.key in worlds[k].spool.receipts {
      ReceiptIsAnswer(worlds[k], write.key, rules, codec);
    }
  }

  function ReceiptIs(key: Key, r: Receipt): World -> bool {
    (w: World) => key in w.spool.receipts && w.spool.receipts[key] == r
  }

  /** A work key has at most one receipt: once recorded it is never replaced or removed. */
  lemma ReceiptForever(worlds: seq<World>, actions: seq<Action>, i: nat, k: nat, key: Key, rules: Rules, codec: Codec)
    requires Run(worlds, actions, rules, codec) && i <= k < |worlds| && key in worlds[i].spool.receipts
    ensures key in worlds[k].spool.receipts && worlds[k].spool.receipts[key] == worlds[i].spool.receipts[key]
  {
    var inv := ReceiptIs(key, worlds[i].spool.receipts[key]);
    assert Preserved(StepOf(rules, codec), inv) by {
      forall w, action, x | inv(w) && StepOf(rules, codec)(w, action, x) ensures inv(x) {
        if action.AtSpool? {
          SpoolMoves(w.spool, action.spoolWrite, codec);
        }
      }
    }
    Forever(worlds, actions, StepOf(rules, codec), inv, i, k);
  }

  function JournalIs(h: Hash, r: Receipt): World -> bool { (w: World) => h in w.journal && w.journal[h] == r }

  /** Core never changes a disposition. */
  lemma DispositionForever(
      worlds: seq<World>, actions: seq<Action>, i: nat, k: nat, h: Hash, rules: Rules, codec: Codec)
    requires Run(worlds, actions, rules, codec) && i <= k < |worlds| && h in worlds[i].journal
    ensures h in worlds[k].journal && worlds[k].journal[h] == worlds[i].journal[h]
  {
    var inv := JournalIs(h, worlds[i].journal[h]);
    assert Preserved(StepOf(rules, codec), inv);
    Forever(worlds, actions, StepOf(rules, codec), inv, i, k);
  }

  /** An envelope with this identity was made. */
  predicate MadeAs(log: seq<Issued>, h: Hash, codec: Codec) {
    exists i :: 0 <= i < |log| && codec.id(log[i].envelope) == h
  }

  predicate AllMade(journal: map<Hash, Receipt>, log: seq<Issued>, codec: Codec) {
    forall h :: h in journal ==> MadeAs(log, h, codec)
  }

  function MadeFor(codec: Codec): World -> bool { (w: World) => AllMade(w.journal, w.log, codec) }

  lemma MadeStays(log: seq<Issued>, write: S.Write, h: Hash, codec: Codec)
    requires MadeAs(log, h, codec)
    ensures MadeAs(S.LogAfter(log, write), h, codec)
  {
    var i :| 0 <= i < |log| && codec.id(log[i].envelope) == h;
    assert codec.id(S.LogAfter(log, write)[i].envelope) == h;
  }

  lemma MadeKept(w: World, action: Action, x: World, rules: Rules, codec: Codec)
    requires Step(w, action, x, rules, codec) && AllMade(w.journal, w.log, codec)
    ensures AllMade(x.journal, x.log, codec)
  {
    forall h | h in x.journal ensures MadeAs(x.log, h, codec) {
      if action.AtSpool? {
        MadeStays(w.log, action.spoolWrite, h, codec);
      } else if action.AtCore? && h == codec.id(action.envelope) {
        var i :| 0 <= i < |w.log| && w.log[i].envelope == action.envelope;
        assert codec.id(w.log[i].envelope) == h;
      }
    }
  }

  /** Core disposes only of envelopes that were made. */
  lemma JournaledWasMade(worlds: seq<World>, actions: seq<Action>, k: nat, rules: Rules, codec: Codec)
    requires Run(worlds, actions, rules, codec) && k < |worlds|
    ensures AllMade(worlds[k].journal, worlds[k].log, codec)
  {
    var inv := MadeFor(codec);
    assert Preserved(StepOf(rules, codec), inv) by {
      forall w, action, x | inv(w) && StepOf(rules, codec)(w, action, x) ensures inv(x) {
        MadeKept(w, action, x, rules, codec);
      }
    }
    Forever(worlds, actions, StepOf(rules, codec), inv, 0, k);
  }

  lemma LoggedKept(w: World, action: Action, x: World, rules: Rules, codec: Codec, key: Key)
    requires Step(w, action, x, rules, codec) && Logged(w.log, key)
    ensures Logged(x.log, key)
  {
    if action.AtSpool? && action.spoolWrite.PutEnvelope? {
      LoggedLonger(w.log, Issued(action.spoolWrite.key, action.spoolWrite.envelope), key);
    }
  }

  lemma LoggedRefused(w: World, key: Key, e: Envelope, rules: Rules, codec: Codec)
    requires SpoolOk(w.spool, w.log, codec) && Logged(w.log, key)
    ensures !MayPutEnvelope(w.spool, key, e, codec)
  {
    var i :| 0 <= i < |w.log| && w.log[i].key == key;
    assert Held(w.spool.envelopes, w.spool.receipts, w.log[i], codec);
  }

  /** A work key gets at most one envelope in a whole run. */
  lemma EnvelopeOnce(worlds: seq<World>, actions: seq<Action>, i: nat, j: nat, rules: Rules, codec: Codec)
    requires Run(worlds, actions, rules, codec) && GatewayRun.KeysNameJobs(rules) && i < j < |actions|
    requires actions[i].AtSpool? && actions[i].spoolWrite.PutEnvelope? && actions[j].AtSpool?
             && actions[j].spoolWrite.PutEnvelope?
    ensures actions[i].spoolWrite.key != actions[j].spoolWrite.key
  {
    var key := actions[i].spoolWrite.key;
    var inv := (w: World) => Logged(w.log, key);
    assert Preserved(StepOf(rules, codec), inv) by {
      forall w, action, x | inv(w) && StepOf(rules, codec)(w, action, x) ensures inv(x) {
        LoggedKept(w, action, x, rules, codec, key);
      }
    }
    RunStep(worlds, actions, i, rules, codec);
    LoggedLonger(worlds[i].log, Issued(key, actions[i].spoolWrite.envelope), key);
    Forever(worlds, actions, StepOf(rules, codec), inv, i + 1, j);
    RunStep(worlds, actions, j, rules, codec);
    RunKeepsInv(worlds, actions, j, rules, codec);
    LoggedRefused(worlds[j], key, actions[j].spoolWrite.envelope, rules, codec);
  }
}
