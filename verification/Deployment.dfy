/**
 The three processes together: the gateway (crates/meshmine-gateway/src/lib.rs),
 the operator's client (crates/meshmine-core-link/src/client.rs) and Core's
 engine (crates/meshmine-core-link/src/admission.rs). Every method here calls the
 methods of those objects, and the writes they make are proved to be steps of the
 state machine of module Pipeline; so what holds in all of its runs holds here.
 The network is a function from what was sent to what arrives, which may lose,
 repeat, delay and invent messages, but not forge a signature.
 */
module Deployment {
  import opened Wrappers
  import opened Bytes
  import opened GatewayStore
  import opened GatewayRecords
  import opened Spool
  import opened Pipeline
  import opened Traces
  import S = Spool
  import P = Pipeline
  import Client
  import Admission
  import Handoff
  import Agreement
  import Gateway
  import GatewayOpen
  import GatewayRun

  /** An envelope that reaches Core, and when. */
  datatype Delivery = Delivery(envelope: Envelope, now: nat)

  type Network = set<Receipt> -> seq<Client.Message>

  // ---- The run so far, as one fact ----

  ghost predicate Ran(worlds: seq<World>, actions: seq<Action>, rules: Rules, codec: Codec, w: World) {
    && |worlds| == |actions| + 1
    && forall i: int {:trigger Opened(i)} :: Opened(i) && i == 24 ==>
      P.Run(worlds, actions, rules, codec) && worlds[|actions|] == w
  }

  lemma RanStart(rules: Rules, codec: Codec)
    ensures Ran([START], [], rules, codec, START)
  {
  }

  lemma RanTrace(worlds: seq<World>, actions: seq<Action>, rules: Rules, codec: Codec, w: World,
                 later: seq<World>, more: seq<Action>)
    requires Ran(worlds, actions, rules, codec, w) && IsTrace(later, more, P.StepOf(rules, codec)) && later[0] == w
    ensures Ran(worlds + later[1..], actions + more, rules, codec, later[|more|])
  {
    assert Opened(24);
    Join(worlds, actions, later, more, P.StepOf(rules, codec));
  }

  lemma RanStep(
      worlds: seq<World>, actions: seq<Action>, rules: Rules, codec: Codec, w: World, action: Action, x: World)
    requires Ran(worlds, actions, rules, codec, w) && Step(w, action, x, rules, codec)
    ensures Ran(worlds + [x], actions + [action], rules, codec, x)
  {
    assert P.StepOf(rules, codec)(w, action, x);
    RanTrace(worlds, actions, rules, codec, w, [w, x], [action]);
    assert [w, x][1..] == [x];
  }

  lemma RanGateway(worlds: seq<World>, actions: seq<Action>, rules: Rules, codec: Codec, w: World,
                   trail: seq<Store>, writes: seq<GatewayStore.Write>, n: nat) returns (later: seq<World>)
    requires Ran(worlds, actions, rules, codec, w) && GatewayRun.Run(trail, writes, rules)
    requires n <= |writes| && trail[n] == w.gateway
    requires forall k :: n <= k < |writes| && writes[k].Acknowledge? ==> writes[k].key in w.spool.receipts
    ensures var x := w.(gateway := trail[|writes|], accepted := AcceptedAll(w.accepted, writes[n..]));
            Ran(worlds + later, actions + GatewayActions(writes[n..]), rules, codec, x)
  {
    Later(trail, writes, GatewayRun.StepOf(rules), n);
    GatewayTrace(w, trail[n..], writes[n..], rules, codec);
    later := GatewayWorlds(w, trail[n..], writes[n..])[1..];
    RanTrace(worlds, actions, rules, codec, w, GatewayWorlds(w, trail[n..], writes[n..]), GatewayActions(writes[n..]));
  }

  /** What a crash leaves: any world of the run so far is itself the end of a run. */
  lemma RanBefore(worlds: seq<World>, actions: seq<Action>, rules: Rules, codec: Codec, w: World, k: nat)
    requires Ran(worlds, actions, rules, codec, w) && k <= |actions|
    ensures Ran(worlds[..k + 1], actions[..k], rules, codec, worlds[k])
  {
    assert Opened(24);
    Earlier(worlds, actions, P.StepOf(rules, codec), k);
  }

  lemma RanInv(worlds: seq<World>, actions: seq<Action>, rules: Rules, codec: Codec, w: World)
    requires Ran(worlds, actions, rules, codec, w) && GatewayRun.KeysNameJobs(rules)
    ensures Sound(w.gateway, rules) && SpoolOk(w.spool, w.log, codec)
  {
    assert Opened(24);
    RunKeepsInv(worlds, actions, |actions|, rules, codec);
  }

  // ---- The writes of each process, among the actions ----

  function SpoolPart(actions: seq<Action>): seq<S.Write> {
    if actions == [] then []
    else
      var last := actions[|actions| - 1];
      SpoolPart(actions[..|actions| - 1]) + if last.AtSpool? then [last.spoolWrite] else []
  }

  function GatewayPart(actions: seq<Action>): seq<GatewayStore.Write> {
    if actions == [] then []
    else
      var last := actions[|actions| - 1];
      GatewayPart(actions[..|actions| - 1]) + if last.AtGateway? then [last.gatewayWrite] else []
  }

  /** Since the base, the actions are exactly the writes of the two objects, each in its order, and answers of Core. */
  ghost predicate Faithful(actions: seq<Action>, base: nat, spooled: seq<S.Write>, stored: seq<GatewayStore.Write>) {
    && base <= |actions|
    && forall i: int {:trigger Opened(i)} :: Opened(i) && i == 28 ==>
      SpoolPart(actions[base..]) == spooled && GatewayPart(actions[base..]) == stored
  }

  lemma FaithfulStart(actions: seq<Action>)
    ensures Faithful(actions, |actions|, [], [])
  {
    assert actions[|actions|..] == [];
  }

  lemma FaithfulNext(
      actions: seq<Action>, base: nat, spooled: seq<S.Write>, stored: seq<GatewayStore.Write>, action: Action)
    requires Faithful(actions, base, spooled, stored)
    ensures Faithful(actions + [action], base,
                     spooled + (if action.AtSpool? then [action.spoolWrite] else []),
                     stored + (if action.AtGateway? then [action.gatewayWrite] else []))
  {
    assert Opened(28);
    var since := (actions + [action])[base..];
    assert since[..|since| - 1] == actions[base..] && since[|since| - 1] == action;
  }

  lemma {:induction false} FaithfulGateway(
      actions: seq<Action>, base: nat, spooled: seq<S.Write>, stored: seq<GatewayStore.Write>,
      ws: seq<GatewayStore.Write>)
    requires Faithful(actions, base, spooled, stored)
    ensures Faithful(actions + GatewayActions(ws), base, spooled, stored + ws)
    decreases |ws|
  {
    if ws == [] {
      assert actions + GatewayActions(ws) == actions && stored + ws == stored;
    } else {
      var n := |ws| - 1;
      FaithfulGateway(actions, base, spooled, stored, ws[..n]);
      FaithfulNext(actions + GatewayActions(ws[..n]), base, spooled, stored + ws[..n], AtGateway(ws[n]));
      assert actions + GatewayActions(ws[..n]) + [AtGateway(ws[n])] == actions + GatewayActions(ws);
      assert stored + ws[..n] + [ws[n]] == stored + ws && spooled + [] == spooled;
    }
  }

  // ---- Envelopes on the wire ----

  ghost predicate OnceMade(log: seq<Issued>, outbox: set<Envelope>) {
    forall i: int {:trigger Opened(i)} :: Opened(i) && i == 25 ==> forall e :: e in outbox ==> IsMade(log, e)
  }

  predicate IsMade(log: seq<Issued>, e: Envelope) { exists i :: 0 <= i < |log| && log[i].envelope == e }

  lemma StillMade(log: seq<Issued>, outbox: set<Envelope>, w: S.Write)
    requires OnceMade(log, outbox)
    ensures OnceMade(LogAfter(log, w), outbox)
  {
    assert Opened(25);
    forall e | e in outbox ensures IsMade(LogAfter(log, w), e) {
      var i :| 0 <= i < |log| && log[i].envelope == e;
      assert LogAfter(log, w)[i].envelope == e;
    }
  }

  lemma SendMade(log: seq<Issued>, outbox: set<Envelope>, e: Envelope)
    requires OnceMade(log, outbox) && IsMade(log, e)
    ensures OnceMade(log, outbox + {e})
  {
    assert Opened(25);
  }

  lemma MadeIn(log: seq<Issued>, outbox: set<Envelope>, e: Envelope)
    requires OnceMade(log, outbox) && e in outbox
    ensures IsMade(log, e)
  {
    assert Opened(25);
  }

  /** Waiting envelopes were made. */
  lemma WaitingMade(s: S.Spool, log: seq<Issued>, codec: Codec, key: Key)
    requires Client.Kept(s, log, codec) && key in s.envelopes
    ensures IsMade(log, s.envelopes[key])
  {
    Client.KeptMeans(s, log, codec);
    assert Logged(log, key);
    var i :| 0 <= i < |log| && log[i].key == key;
    assert Held(s.envelopes, s.receipts, log[i], codec);
  }

  /** Only receipts Core sent carry its signature. */
  ghost predicate Honest(network: Network, signed: Receipt -> bool) {
    forall sent, m :: m in network(sent) && m.CaptureDisposition? && signed(m.receipt) ==> m.receipt in sent
  }

  /** The fixed parameters of the three processes. */
  datatype Settings = Settings(
    enforce: bool, shareHash: ShareHash, link: Client.Link, connection: Hash, rulings: Admission.Rulings)

  /** What the three processes have stored. */
  datatype Disk = Disk(
    store: Store, spool: S.Spool, core: Admission.Core, ledger: Handoff.Ledger,
    bundles: map<Hash, Client.Bundle>, index: map<nat, Hash>)

  ghost predicate Operable(settings: Settings) {
    && (forall e :: settings.link.codec.key(e) == Client.EnvelopeKey(e))
    && settings.rulings.codec == settings.link.codec
    && (forall b, now :: settings.rulings.valid(b, now) ==> Admission.Linked(b))
    && (forall e, f :: settings.link.codec.id(e) == settings.link.codec.id(f) ==> e == f)
  }

  /** The jobs of a sound store have targets of 32 bytes. */
  lemma SoundTyped(s: Store, rules: Rules, enforce: bool, shareHash: ShareHash)
    requires Sound(s, rules) && Governs(rules, enforce, shareHash)
    ensures GatewayOpen.Typed(s)
  {
    forall q | q in s.jobs ensures TargetsSized(s.jobs[q]) {
      assert JobOk(q, s.jobs[q], s.states[q], rules);
      assert rules.job(s.jobs[q]);
    }
  }

  class Deployment {
    var gateway: Gateway.Gateway
    var client: Client.OperatorClient
    var core: Admission.CoreEngine

    /** What is on the wire: envelopes sent to Core, receipts sent by Core. */
    var outbox: set<Envelope>
    var sent: set<Receipt>

    ghost const base: nat
    ghost var accepted: map<Key, Capture>
    ghost var worlds: seq<World>
    ghost var actions: seq<Action>

    ghost function Now(): World
      reads this, gateway, client, core
    {
      World(gateway.store, client.spool, client.log, core.ledger.journal, sent, accepted)
    }

    ghost predicate Linked()
      reads this, gateway, client, core
    {
      && Ran(worlds, actions, gateway.rules, client.link.codec, Now()) && OnceMade(client.log, outbox)
      && core.rulings.codec == client.link.codec && Faithful(actions, base, client.writes, gateway.writes)
    }

    /** The fixed parameters fit together. */
    ghost predicate Tuned()
      reads this
    {
      forall i: int {:trigger Opened(i)} :: Opened(i) && i == 26 ==>
        gateway.Configured() && client.Configured() && core.Configured()
    }

    ghost predicate CoreReady()
      reads this, core
    {
      forall i: int {:trigger Opened(i)} :: Opened(i) && i == 27 ==> core.Valid()
    }

    ghost predicate EndsReady()
      reads this, gateway, client
    {
      forall i: int {:trigger Opened(i)} :: Opened(i) && i == 31 ==> gateway.Valid() && client.Valid()
    }

    ghost predicate Valid()
      reads this, gateway, client, core
    {
      EndsReady() && CoreReady() && Tuned() && Linked()
    }

    constructor (gateway: Gateway.Gateway, client: Client.OperatorClient, core: Admission.CoreEngine,
                 outbox: set<Envelope>, sent: set<Receipt>,
                 ghost accepted: map<Key, Capture>, ghost worlds: seq<World>, ghost actions: seq<Action>,
                 ghost base: nat)
      requires Faithful(actions, base, client.writes, gateway.writes)
      requires gateway.Valid() && gateway.Configured() && client.Valid() && client.Configured()
      requires core.Valid() && core.Configured() && core.rulings.codec == client.link.codec
               && OnceMade(client.log, outbox)
      requires Ran(worlds, actions, gateway.rules, client.link.codec,
                   World(gateway.store, client.spool, client.log, core.ledger.journal, sent, accepted))
      ensures Valid() && this.gateway == gateway && this.client == client && this.core == core && this.outbox == outbox
      ensures this.sent == sent && this.accepted == accepted && this.worlds == worlds && this.actions == actions
      ensures this.base == base
    {
      this.gateway, this.client, this.core, this.outbox, this.sent := gateway, client, core, outbox, sent;
      this.accepted, this.worlds, this.actions, this.base := accepted, worlds, actions, base;
    }

    // ---- The gateway ----

    /** The gateway's writes since n become actions; acknowledgements are of answered keys. */
    ghost method GatewayMoved(n: nat, w: World)
      requires gateway.Logged() && Ran(worlds, actions, gateway.rules, client.link.codec, w)
      requires n <= |gateway.writes| && n < |gateway.trail| && gateway.trail[n] == w.gateway
      requires Faithful(actions, base, client.writes, gateway.writes[..n])
      requires forall k :: n <= k < |gateway.writes| && gateway.writes[k].Acknowledge? ==>
               gateway.writes[k].key in w.spool.receipts
      modifies this`worlds, this`actions, this`accepted
      ensures accepted == AcceptedAll(w.accepted, gateway.writes[n..]) && old(worlds) <= worlds
              && old(actions) <= actions
      ensures Ran(worlds, actions, gateway.rules, client.link.codec, w.(gateway := gateway.store, accepted := accepted))
      ensures Faithful(actions, base, client.writes, gateway.writes)
    {
      var ws := gateway.writes[n..];
      var later := RanGateway(worlds, actions, gateway.rules, client.link.codec, w, gateway.trail, gateway.writes, n);
      FaithfulGateway(actions, base, client.writes, gateway.writes[..n], ws);
      assert gateway.writes[..n] + ws == gateway.writes;
      worlds, actions, accepted := worlds + later, actions + GatewayActions(ws), AcceptedAll(w.accepted, ws);
    }

    method Issue(request: Job, transition: Option<Gateway.PreviousJob>, expected: Option<nat>)
      returns (r: GatewayRecords.Result<nat>)
      requires Valid() && TargetsSized(request)
      modifies this, gateway
      ensures Valid() && old(worlds) <= worlds && old(actions) <= actions && gateway == old(gateway)
              && client == old(client) && core == old(core)
    {
      ghost var n, w := |gateway.writes|, Now();
      assert Opened(26);
      assert Opened(31);
      r := gateway.IssueLogged(request, transition, expected);
      GatewayMoved(n, w);
    }

    method Cancel(id: Id, cutoff: nat, end: nat) returns (r: GatewayRecords.Result<()>)
      requires Valid()
      modifies this, gateway
      ensures Valid() && old(worlds) <= worlds && old(actions) <= actions && gateway == old(gateway)
              && client == old(client) && core == old(core)
    {
      ghost var n, w := |gateway.writes|, Now();
      assert Opened(31);
      r := gateway.CancelJob(id, cutoff, end);
      GatewayMoved(n, w);
    }

    method Close(nowMs: nat)
      requires Valid()
      modifies this, gateway
      ensures Valid() && old(worlds) <= worlds && old(actions) <= actions && gateway == old(gateway)
              && client == old(client) && core == old(core)
    {
      ghost var n, w := |gateway.writes|, Now();
      assert Opened(31);
      var _ := gateway.CloseExpired(nowMs);
      GatewayMoved(n, w);
    }

    /** A share from the wire: the parser has checked the user name. */
    method Share(prefix: seq<Byte>, telemetry: nat, submission: Gateway.Submission, receivedMs: nat)
      returns (r: GatewayRecords.Result<Capture>)
      requires Valid() && |prefix| == 4 && |submission.extraNonce2| == 4 && Gateway.WellNamed(submission.username)
      requires forall h :: |gateway.shareHash(h).bytes| == 32
      modifies this, gateway
      ensures Valid() && old(worlds) <= worlds && old(actions) <= actions && gateway == old(gateway)
              && client == old(client) && core == old(core)
      ensures gateway.writes == old(gateway.writes) + if r.Ok? then [Accept(gateway.rules.key(r.value), r.value)]
              else []
      ensures r.Ok? ==> old(gateway.Admissible(prefix, submission, receivedMs))
                        && r.value == old(gateway.CaptureFor(prefix, telemetry, submission, receivedMs))
      ensures r == GatewayRecords.Err(Duplicate) ==>
              && old(gateway.Admissible(prefix, submission, receivedMs))
              && Repeated(accepted, old(gateway.CaptureFor(prefix, telemetry, submission, receivedMs)))
    {
      ghost var n, w := |gateway.writes|, Now();
      assert Opened(26);
      assert Opened(31);
      r := gateway.SubmitParsed(prefix, telemetry, submission, receivedMs);
      GatewayMoved(n, w);
      if r == GatewayRecords.Err(Duplicate) {
        RepeatsAccepted(old(gateway.CaptureFor(prefix, telemetry, submission, receivedMs)));
      }
    }

    // ---- Captures on their way ----

    /** The client and the run after one write to the spool. */
    ghost method SpoolMoved(write: S.Write, w: World)
      requires Ran(worlds, actions, gateway.rules, client.link.codec, w) && SpoolMay(w, write, client.link.codec)
      requires client.spool == S.Apply(w.spool, write, client.link.codec) && client.log == LogAfter(w.log, write)
      requires OnceMade(w.log, outbox) && client.writes != [] && client.writes[|client.writes| - 1] == write
      requires Faithful(actions, base, client.writes[..|client.writes| - 1], gateway.writes)
      modifies this`worlds, this`actions
      ensures Ran(worlds, actions, gateway.rules, client.link.codec, w.(spool := client.spool, log := client.log))
      ensures old(worlds) <= worlds && old(actions) <= actions && OnceMade(client.log, outbox)
      ensures Faithful(actions, base, client.writes, gateway.writes)
    {
      FaithfulNext(actions, base, client.writes[..|client.writes| - 1], gateway.writes, AtSpool(write));
      assert client.writes[..|client.writes| - 1] + [write] == client.writes && gateway.writes + [] == gateway.writes;
      var x := w.(spool := client.spool, log := client.log);
      RanStep(worlds, actions, gateway.rules, client.link.codec, w, AtSpool(write), x);
      StillMade(w.log, outbox, write);
      worlds, actions := worlds + [x], actions + [AtSpool(write)];
    }

    /** The first half of a submission: the recorded receipt, or the envelope to send. */
    method Begin(capture: Capture) returns (r: Client.Result<Client.Begun>)
      requires Valid() && WorkKey(capture) in gateway.store.captures
               && gateway.store.captures[WorkKey(capture)] == capture
      modifies this`worlds, this`actions, client
      ensures Valid() && old(worlds) <= worlds && old(actions) <= actions && old(client.writes) <= client.writes
      ensures r.Ok? && r.value.Recorded? <==> WorkKey(capture) in client.spool.receipts
      ensures r.Ok? && r.value.Sent? ==>
                && WorkKey(capture) in client.spool.envelopes
                   && client.spool.envelopes[WorkKey(capture)] == r.value.envelope
                && WorkKey(capture) !in client.spool.receipts
    {
      ghost var w := Now();
      assert Opened(26);
      assert Opened(31);
      r := client.BeginSubmit(capture);
      if client.writes != old(client.writes) {
        assert client.writes[..|client.writes| - 1] == old(client.writes);
        SpoolMoved(PutEnvelope(WorkKey(capture), r.value.envelope), w);
      }
    }

    /** The second half: the envelope is on the wire, and messages from Core arrive. */
    method Await(key: Key, e: Envelope, network: Network) returns (r: Client.Result<Hash>)
      requires Valid() && Honest(network, client.link.signed)
      requires key in client.spool.envelopes && client.spool.envelopes[key] == e && key !in client.spool.receipts
      modifies this`worlds, this`actions, client
      ensures Valid() && old(worlds) <= worlds && old(actions) <= actions && old(client.writes) <= client.writes
      ensures r.Ok? <==> key in client.spool.receipts
    {
      ghost var w := Now();
      var inbox := network(sent);
      assert Opened(31);
      r := client.AwaitReceipt(key, e, inbox);
      if r.Ok? {
        ghost var i :| 0 <= i < |inbox| && client.DecidedAt(inbox, i, key, e, r.value, old(client.writes),
                                                            old(client.spool));
        assert inbox[i] in inbox && client.writes[..|client.writes| - 1] == old(client.writes);
        SpoolMoved(PutReceipt(key, inbox[i].receipt), w);
      }
    }

    /** The tombstone, only once the receipt is in the spool. */
    method Acknowledge(key: Key)
      requires Valid() && key in gateway.memory.indexes && key in client.spool.receipts
      modifies this`worlds, this`actions, this`accepted, gateway
      ensures Valid() && old(worlds) <= worlds && old(actions) <= actions
      ensures gateway.writes == old(gateway.writes) + [GatewayStore.Acknowledge(key)]
    {
      ghost var n, w := |gateway.writes|, Now();
      assert Opened(26);
      assert Opened(31);
      var _ := gateway.AcknowledgeCapture(key);
      AcceptsNothing(w.accepted, gateway.writes[n..]);
      GatewayMoved(n, w);
    }

    /** What Core answers is what it journaled, now or before. */
    method Answer(d: Delivery) returns (r: Admission.Admitted<Receipt>)
      requires CoreReady()
      modifies core
      ensures CoreReady()
      ensures r.Yes? ==> Answers(d.envelope, r.value, core.rulings.codec)
                         && core.ledger.journal ==
                            old(core.ledger.journal)[core.rulings.codec.id(d.envelope) := r.value]
      ensures r.Yes? && core.rulings.codec.id(d.envelope) in old(core.ledger.journal) ==>
              r.value == old(core.ledger.journal)[core.rulings.codec.id(d.envelope)]
      ensures r.No? ==> core.ledger.journal == old(core.ledger.journal)
      ensures old(core.Due(d.envelope, d.now)).Some? ==> r == Admission.Yes(old(core.Due(d.envelope, d.now)).value)
    {
      assert Opened(27);
      r := core.AdmitCapture(d.envelope, d.now);
    }

    /** Core's answer becomes an action. */
    ghost method CoreMoved(e: Envelope, r: Receipt, w: World)
      requires Ran(worlds, actions, gateway.rules, client.link.codec, w)
               && Faithful(actions, base, client.writes, gateway.writes)
      requires IsMade(w.log, e) && Answers(e, r, client.link.codec)
      requires client.link.codec.id(e) in w.journal ==> r == w.journal[client.link.codec.id(e)]
      modifies this`worlds, this`actions
      ensures Ran(worlds, actions, gateway.rules, client.link.codec,
                  w.(journal := w.journal[client.link.codec.id(e) := r], sent := w.sent + {r}))
      ensures Faithful(actions, base, client.writes, gateway.writes) && old(worlds) <= worlds && old(actions) <= actions
    {
      var x := w.(journal := w.journal[client.link.codec.id(e) := r], sent := w.sent + {r});
      CoreStep(w, e, r, gateway.rules, client.link.codec);
      RanStep(worlds, actions, gateway.rules, client.link.codec, w, AtCore(e, r), x);
      FaithfulNext(actions, base, client.writes, gateway.writes, AtCore(e, r));
      assert client.writes + [] == client.writes && gateway.writes + [] == gateway.writes;
      worlds, actions := worlds + [x], actions + [AtCore(e, r)];
    }

    /** Core receives an envelope and answers it; a forged one is not answered. */
    method Deliver(d: Delivery)
      requires Valid()
      modifies this`worlds, this`actions, this`sent, core
      ensures Valid() && old(worlds) <= worlds && old(actions) <= actions && old(sent) <= sent
      ensures d.envelope in outbox && old(core.Due(d.envelope, d.now)).Some? ==>
              Recorded(d.envelope, old(core.Due(d.envelope, d.now)).value)
    {
      if d.envelope in outbox {
        Settle(d);
      }
    }

    /** The receipt is in Core's journal and on the wire. */
    predicate Recorded(e: Envelope, r: Receipt)
      reads this, core
    {
      r in sent && core.rulings.codec.id(e) in core.ledger.journal
        && core.ledger.journal[core.rulings.codec.id(e)] == r
    }

    method Settle(d: Delivery)
      requires Valid() && d.envelope in outbox
      modifies this`worlds, this`actions, this`sent, core
      ensures Valid() && old(worlds) <= worlds && old(actions) <= actions && old(sent) <= sent
      ensures old(core.Due(d.envelope, d.now)).Some? ==> Recorded(d.envelope, old(core.Due(d.envelope, d.now)).value)
    {
      ghost var w := Now();
      var r := Answer(d);
      if r.Yes? {
        MadeIn(client.log, outbox, d.envelope);
        CoreMoved(d.envelope, r.value, w);
        sent := sent + {r.value};
      }
    }

    method Exchange(deliveries: seq<Delivery>)
      requires Valid()
      modifies this`worlds, this`actions, this`sent, core
      ensures Valid() && old(worlds) <= worlds && old(actions) <= actions && old(sent) <= sent
    {
      for i := 0 to |deliveries|
        invariant Valid() && old(worlds) <= worlds && old(actions) <= actions && old(sent) <= sent
      {
        Deliver(deliveries[i]);
      }
    }

    /**
     The client as the gateway's consumer: it submits a pending capture, and Core and the network do what they will
     while it waits. Success is a receipt in the spool.
     */
    method Admit(capture: Capture, deliveries: seq<Delivery>, network: Network) returns (ok: bool)
      requires Valid() && Honest(network, client.link.signed)
      requires WorkKey(capture) in gateway.store.captures && gateway.store.captures[WorkKey(capture)] == capture
      modifies this`worlds, this`actions, this`outbox, this`sent, client, core
      ensures Valid() && old(worlds) <= worlds && old(actions) <= actions
      ensures ok <==> WorkKey(capture) in client.spool.receipts
    {
      var begun := Begin(capture);
      match begun {
        case Err(_) => ok := false;
        case Ok(Recorded(_)) => ok := true;
        case Ok(Sent(e)) =>
          Send(WorkKey(capture), e);
          Exchange(deliveries);
          var answer := Await(WorkKey(capture), e, network);
          ok := answer.Ok?;
      }
    }

    /** One round of the drain: the first pending capture is acknowledged exactly if its receipt is in the spool. */
    method DrainOne(deliveries: seq<Delivery>, network: Network) returns (done: bool)
      requires Valid() && Honest(network, client.link.signed) && gateway.memory.forwarded != []
      modifies this`worlds, this`actions, this`accepted, this`outbox, this`sent, gateway, client, core
      ensures Valid() && old(worlds) <= worlds && old(actions) <= actions
      ensures done <==> WorkKey(old(gateway.memory.forwarded[0])) in client.spool.receipts
      ensures gateway.writes == old(gateway.writes)
                                + if done then [GatewayStore.Acknowledge(WorkKey(old(gateway.memory.forwarded[0])))]
                                  else []
      ensures !done ==> gateway.memory == old(gateway.memory)
    {
      var capture := gateway.memory.forwarded[0];
      assert Opened(31);
      Gateway.FirstIndexed(gateway.store, gateway.memory, gateway.rules);
      KeyIsWork(capture);
      done := Admit(capture, deliveries, network);
      if done {
        Acknowledge(WorkKey(capture));
      }
    }

    /**
     Drains pending captures, at most as many as there are rounds, and stops at the first that is not answered. Every
     capture taken is acknowledged after its receipt, in order.
     */
    method DrainCaptures(rounds: seq<(seq<Delivery>, Network)>) returns (drained: seq<Key>, complete: bool)
      requires Valid() && forall i :: 0 <= i < |rounds| ==> Honest(rounds[i].1, client.link.signed)
      modifies this`worlds, this`actions, this`accepted, this`outbox, this`sent, gateway, client, core
      ensures Valid() && old(worlds) <= worlds && old(actions) <= actions && |drained| <= |rounds|
      ensures gateway.writes == old(gateway.writes) + Acknowledgements(drained)
      ensures !complete ==> gateway.memory.forwarded != []
                            && WorkKey(gateway.memory.forwarded[0]) !in client.spool.receipts
      ensures complete && |drained| < |rounds| ==> gateway.memory.forwarded == []
    {
      drained := [];
      for i := 0 to |rounds|
        invariant Valid() && old(worlds) <= worlds && old(actions) <= actions && |drained| == i
        invariant gateway.writes == old(gateway.writes) + Acknowledgements(drained)
      {
        if gateway.memory.forwarded == [] {
          return drained, true;
        }
        var key := WorkKey(gateway.memory.forwarded[0]);
        var done := DrainOne(rounds[i].0, rounds[i].1);
        if !done {
          return drained, false;
        }
        drained := drained + [key];
      }
      complete := true;
    }

    // ---- Assignments ----

    method InstallBundle(b: Client.Bundle) returns (r: Client.Result<()>)
      requires Valid()
      modifies client`bundles, client`index
      ensures Valid()
    {
      assert Opened(31);
      r := client.PersistBundle(b);
    }

    /** A drain of the operator's spool. */
    method CompleteDrain(current: Client.Bundle, next: Client.Bundle, drainedMs: nat, inbox: seq<Client.Message>)
      returns (r: Client.Result<()>)
      requires Valid()
      modifies this`worlds, this`actions, client
      ensures Valid() && old(worlds) <= worlds && old(actions) <= actions
      ensures r.Ok? ==> current.assignment in client.spool.drains
                        && DrainOk(client.spool.drains[current.assignment], current.assignment, client.spool.receipts,
                                   client.log)
    {
      ghost var w := Now();
      assert Opened(31);
      r := client.CompleteDrain(current, next, drainedMs, inbox);
      if client.writes != old(client.writes) {
        assert client.writes[..|client.writes| - 1] == old(client.writes);
        SpoolMoved(client.writes[|client.writes| - 1], w);
      }
    }

    method Stage(b: Client.Bundle, now: nat) returns (r: Admission.Admitted<()>)
      requires Valid()
      modifies core
      ensures Valid()
    {
      r := StageAtCore(b, now);
    }

    method StageAtCore(b: Client.Bundle, now: nat) returns (r: Admission.Admitted<()>)
      requires CoreReady() && Tuned()
      modifies core
      ensures CoreReady() && Tuned() && core.ledger.journal == old(core.ledger.journal)
    {
      assert Opened(26) && Opened(27);
      r := core.StageBundle(b, now);
    }

    /** The end of an assignment at Core. */
    method Advance(d: Handoff.Closing, s: Handoff.Succession, now: nat)
      returns (r: Admission.Admitted<Handoff.DrainAnswer>)
      requires Valid()
      modifies core
      ensures Valid()
    {
      r := AdvanceAtCore(d, s, now);
    }

    method AdvanceAtCore(d: Handoff.Closing, s: Handoff.Succession, now: nat)
      returns (r: Admission.Admitted<Handoff.DrainAnswer>)
      requires CoreReady()
      modifies core
      ensures CoreReady() && core.ledger.journal == old(core.ledger.journal)
    {
      assert Opened(27);
      r := core.CompletePendingTransition(d, s, now);
    }

    lemma RepeatsAccepted(c: Capture)
      requires Tuned() && Linked() && Gateway.Knows(gateway.store, c)
      ensures Repeated(accepted, c)
    {
      RulesOf(this);
      assert Opened(26);
      SeenInRun(worlds, actions, gateway.rules, client.link.codec, Now(), WorkKey(c));
      GenuineShaped(accepted[WorkKey(c)], gateway.rules, gateway.enforce, gateway.shareHash);
      SameKeySameProof(accepted[WorkKey(c)], c);
    }

    lemma KeyIsWork(c: Capture)
      requires Tuned()
      ensures gateway.rules.key(c) == WorkKey(c)
    {
      assert Opened(26);
    }

    method Send(key: Key, e: Envelope)
      requires Valid() && key in client.spool.envelopes && client.spool.envelopes[key] == e
      modifies this`outbox
      ensures Valid() && e in outbox
    {
      assert Opened(31);
      WaitingMade(client.spool, client.log, client.link.codec, key);
      SendMade(client.log, outbox, e);
      outbox := outbox + {e};
    }
  }

  // ---- What holds of the objects themselves ----

  /** The spool's receipt for a key is Core's, and answers the one envelope made for it. */
  predicate AnsweredAt(
      spool: S.Spool, log: seq<Issued>, journal: map<Hash, Receipt>, key: Key, c: Capture, codec: Codec) {
    && key in spool.receipts
    && exists i :: 0 <= i < |log| && AnswerOf(spool.receipts[key], log[i], journal, key, c, codec)
  }

  predicate AnswerOf(r: Receipt, entry: Issued, journal: map<Hash, Receipt>, key: Key, c: Capture, codec: Codec) {
    && entry.key == key && Carries(entry.envelope, c) && Answers(entry.envelope, r, codec)
    && codec.id(entry.envelope) in journal && journal[codec.id(entry.envelope)] == r
  }

  lemma AnsweredHere(w: World, key: Key, c: Capture, codec: Codec)
    requires Answered(w, key, c, codec)
    ensures AnsweredAt(w.spool, w.log, w.journal, key, c, codec)
  {
    var i :| 0 <= i < |w.log| && AnsweredBy(w, key, c, w.log[i], codec);
    assert AnswerOf(w.spool.receipts[key], w.log[i], w.journal, key, c, codec);
  }

  lemma TombstoneInRun(worlds: seq<World>, actions: seq<Action>, rules: Rules, codec: Codec, w: World, key: Key)
    requires Ran(worlds, actions, rules, codec, w) && GatewayRun.KeysNameJobs(rules) && key in w.gateway.tombstones
    ensures key in w.accepted && AnsweredAt(w.spool, w.log, w.journal, key, w.accepted[key], codec)
    ensures forall i, j :: 0 <= i < |w.log| && 0 <= j < |w.log| && w.log[i].key == key == w.log[j].key ==> i == j
  {
    assert Opened(24);
    TombstoneMeansAnswered(worlds, actions, |actions|, key, rules, codec);
    AnsweredHere(w, key, w.accepted[key], codec);
  }

  /** A capture with the same proof of work was accepted before. */
  predicate Repeated(accepted: map<Key, Capture>, c: Capture) {
    WorkKey(c) in accepted && SameProof(accepted[WorkKey(c)], c)
  }

  lemma SeenInRun(worlds: seq<World>, actions: seq<Action>, rules: Rules, codec: Codec, w: World, key: Key)
    requires Ran(worlds, actions, rules, codec, w) && GatewayRun.KeysNameJobs(rules) && GatewayRun.Seen(w.gateway, key)
    ensures key in w.accepted && rules.key(w.accepted[key]) == key && Genuine(w.accepted[key], rules)
  {
    assert Opened(24);
    RunKeepsInv(worlds, actions, |actions|, rules, codec);
    if key in w.gateway.tombstones {
      TombstoneInRun(worlds, actions, rules, codec, w, key);
    }
    assert RememberedAs(key, w.accepted[key], w.gateway, rules);
  }

  lemma GenuineShaped(c: Capture, rules: Rules, enforce: bool, shareHash: ShareHash)
    requires Genuine(c, rules) && Governs(rules, enforce, shareHash)
    ensures Shaped(c) && rules.key(c) == WorkKey(c)
  {
    var job :| rules.capture(c, job);
    assert CaptureMatches(c, job, shareHash);
  }

  lemma AcceptedInRun(
      worlds: seq<World>, actions: seq<Action>, rules: Rules, codec: Codec, w: World, k: nat, key: Key, c: Capture)
    requires Ran(worlds, actions, rules, codec, w) && GatewayRun.KeysNameJobs(rules)
    requires k < |actions| && actions[k] == AtGateway(Accept(key, c))
    ensures (key in w.gateway.captures && w.gateway.captures[key] == c)
            || AnsweredAt(w.spool, w.log, w.journal, key, c, codec)
  {
    assert Opened(24);
    ShareAccounted(worlds, actions, k, |actions|, rules, codec);
    if Answered(w, key, c, codec) {
      AnsweredHere(w, key, c, codec);
    }
  }

  /**
   Whatever methods ran and wherever they crashed: a capture the gateway has tombstoned has one envelope, and the spool
   holds the receipt for it that Core journaled.
   */
  lemma TombstonesAnswered(d: Deployment, key: Key)
    requires d.Valid() && key in d.gateway.store.tombstones
    ensures key in d.accepted
            && AnsweredAt(d.client.spool, d.client.log, d.core.ledger.journal, key, d.accepted[key],
                          d.client.link.codec)
    ensures forall i, j :: 0 <= i < |d.client.log| && 0 <= j < |d.client.log|
                            && d.client.log[i].key == key == d.client.log[j].key ==>
              i == j
  {
    RulesOf(d);
    TombstoneInRun(d.worlds, d.actions, d.gateway.rules, d.client.link.codec, d.Now(), key);
  }

  /** Whatever methods ran and wherever they crashed: a share once accepted is pending as accepted, or answered. */
  lemma SharesAccounted(d: Deployment, k: nat, key: Key, c: Capture)
    requires d.Valid() && k < |d.actions| && d.actions[k] == AtGateway(Accept(key, c))
    ensures || (key in d.gateway.store.captures && d.gateway.store.captures[key] == c)
            || AnsweredAt(d.client.spool, d.client.log, d.core.ledger.journal, key, c, d.client.link.codec)
  {
    RulesOf(d);
    AcceptedInRun(d.worlds, d.actions, d.gateway.rules, d.client.link.codec, d.Now(), k, key, c);
  }

  lemma ReceiptInRun(worlds: seq<World>, actions: seq<Action>, rules: Rules, codec: Codec, w: World, key: Key)
    returns (e: Envelope)
    requires Ran(worlds, actions, rules, codec, w) && GatewayRun.KeysNameJobs(rules) && key in w.spool.receipts
    ensures IsMade(w.log, e) && codec.key(e) == key && key in w.accepted && Carries(e, w.accepted[key])
    ensures codec.id(e) in w.journal && w.journal[codec.id(e)] == w.spool.receipts[key]
  {
    assert Opened(24);
    RunKeepsInv(worlds, actions, |actions|, rules, codec);
    assert Logged(w.log, key);
    var i :| 0 <= i < |w.log| && w.log[i].key == key;
    assert Held(w.spool.envelopes, w.spool.receipts, w.log[i], codec);
    e := w.log[i].envelope;
  }

  /** What Core decided about an envelope, in its ledger. */
  predicate DecidedAt(core: Admission.Core, l: Handoff.Ledger, e: Envelope, r: Receipt, rulings: Admission.Rulings) {
    && e.assignment in core.index && core.index[e.assignment] in core.bundles
    && Admission.Decided(l, core.bundles[core.index[e.assignment]], e, r, rulings)
  }

  lemma CoreFacts(d: Deployment)
    requires d.Tuned() && d.CoreReady()
    ensures Admission.AllRuled(d.core.core, d.core.ledger, d.core.rulings)
    ensures Handoff.LedgerOk(d.core.ledger, d.core.rulings.codec)
    ensures forall e, f :: d.core.rulings.codec.id(e) == d.core.rulings.codec.id(f) ==> e == f
  {
    assert Opened(26) && Opened(27);
    Admission.BookMeans(Admission.Book(d.core.core, d.core.ledger, d.core.history), d.core.rulings);
  }

  /** The journaled envelope of an identity is the one with that identity. */
  lemma SameEnvelope(l: Handoff.Ledger, e: Envelope, codec: Codec)
    requires Handoff.LedgerOk(l, codec) && codec.id(e) in l.journal
    requires forall e, f :: codec.id(e) == codec.id(f) ==> e == f
    ensures codec.id(e) in l.envelopes && l.envelopes[codec.id(e)] == e
  {
    assert Handoff.Entered(l, codec.id(e), codec);
  }

  /**
   Whatever methods ran and wherever they crashed: a receipt in the spool is the verdict on the share that the capture
   accepted under its key stands for. An invalid share is rejected for its reason; a valid one is credited, or its work
   is credited to another share already.
   */
  lemma ReceiptsDecided(d: Deployment, key: Key) returns (e: Envelope)
    requires d.Valid() && key in d.client.spool.receipts
    ensures key in d.accepted && Carries(e, d.accepted[key]) && d.client.link.codec.key(e) == key
    ensures var r := d.client.spool.receipts[key];
            && r.envelopeId == d.core.rulings.codec.id(e) && r.sequence == e.sequence && r.manifest == e.manifest
            && r.assignment == e.assignment == d.accepted[key].jobId
            && DecidedAt(d.core.core, d.core.ledger, e, r, d.core.rulings)
  {
    RulesOf(d);
    e := ReceiptInRun(d.worlds, d.actions, d.gateway.rules, d.client.link.codec, d.Now(), key);
    CoreFacts(d);
    SameEnvelope(d.core.ledger, e, d.core.rulings.codec);
    var h := d.core.rulings.codec.id(e);
    assert Admission.Ruled(d.core.core, d.core.ledger, h, d.core.rulings);
    assert Handoff.Entered(d.core.ledger, h, d.core.rulings.codec);
  }

  /** The work for which an accepted receipt was given. */
  function CreditedWork(l: Handoff.Ledger, r: Receipt): Option<Handoff.Work> {
    if r.shareId in l.shares then Some(l.shares[r.shareId].work) else None
  }

  /** Work is paid once: two accepted receipts in the spool for the same work are for the same key. */
  lemma WorkPaidOnce(d: Deployment, first: Key, second: Key)
    requires d.Valid() && first in d.client.spool.receipts && second in d.client.spool.receipts
    requires d.client.spool.receipts[first].outcome == ACCEPTED == d.client.spool.receipts[second].outcome
    ensures var (l, r, s) := (d.core.ledger, d.client.spool.receipts[first], d.client.spool.receipts[second]);
            CreditedWork(l, r).Some? && (CreditedWork(l, r) == CreditedWork(l, s) ==> first == second)
  {
    RulesOf(d);
    var e := ReceiptInRun(d.worlds, d.actions, d.gateway.rules, d.client.link.codec, d.Now(), first);
    var f := ReceiptInRun(d.worlds, d.actions, d.gateway.rules, d.client.link.codec, d.Now(), second);
    CoreFacts(d);
    var codec := d.core.rulings.codec;
    Handoff.CreditedOnce(d.core.ledger, codec.id(e), codec.id(f), codec);
  }

  lemma MeetInRun(worlds: seq<World>, actions: seq<Action>, rules: Rules, w: World, l: Handoff.Ledger, codec: Codec)
    requires Ran(worlds, actions, rules, codec, w) && GatewayRun.KeysNameJobs(rules) && w.journal == l.journal
    requires Handoff.LedgerOk(l, codec) && Agreement.Ideal(codec)
    ensures Agreement.Meet(w.spool, w.log, l, codec)
  {
    assert Opened(24);
    RunKeepsInv(worlds, actions, |actions|, rules, codec);
    JournaledWasMade(worlds, actions, |actions|, rules, codec);
  }

  /**
   Whatever methods ran and wherever they crashed: once nothing of the active assignment waits in the operator's spool,
   the drain the operator makes completes the transition at Core, if the signatures and the manifest are accepted.
   */
  lemma DrainCompletes(d: Deployment, current: Client.Bundle, next: Client.Bundle, drainedMs: nat, now: nat)
    requires d.Valid() && !Waiting(d.client.spool, current.assignment)
    requires Admission.ActiveIs(d.core.core, current.assignment) && Admission.PendingIs(d.core.core, next.assignment)
    requires d.core.core.bundles[d.core.core.active.value] == current
    requires d.core.core.bundles[d.core.core.pending.value] == next
    requires Handoff.Current(d.core.ledger, current.assignment) && next.assignment !in d.core.ledger.states
    requires var drain := d.client.DrainOf(current, next, drainedMs);
             && d.core.rulings.closes(current, Agreement.ClosingOf(drain)) && d.core.rulings.manifest(next, now)
             && d.core.rulings.succeeds(next, Agreement.SuccessionOf(drain))
    ensures var drain := d.client.DrainOf(current, next, drainedMs);
            d.core.Completable(Agreement.ClosingOf(drain), Agreement.SuccessionOf(drain), now)
  {
    RulesOf(d);
    CoreFacts(d);
    var (l, codec, a) := (d.core.ledger, d.core.rulings.codec, current.assignment);
    MeetInRun(d.worlds, d.actions, d.gateway.rules, d.Now(), l, codec);
    OpenFacts(l, a, codec);
    Agreement.DrainMeetsCursor(d.client.spool, d.client.log, l, d.client.DrainOf(current, next, drainedMs), codec);
  }

  lemma OpenFacts(l: Handoff.Ledger, a: Id, codec: Codec)
    requires Handoff.LedgerOk(l, codec) && Handoff.Current(l, a)
    ensures Handoff.CursorAt(l.cursors, a).drained == None && a !in l.answers && a !in l.closings
  {
    assert Handoff.SealAt(l, a);
  }

  /** Once Core has drained an assignment, no receipt in the spool is for a later capture of it. */
  lemma NothingAfterDrain(d: Deployment, key: Key, a: Id)
    requires d.Valid() && key in d.client.spool.receipts && d.client.spool.receipts[key].assignment == a
    requires a in d.core.ledger.closings
    ensures d.client.spool.receipts[key].sequence <= d.core.ledger.closings[a].last
  {
    RulesOf(d);
    var e := ReceiptInRun(d.worlds, d.actions, d.gateway.rules, d.client.link.codec, d.Now(), key);
    CoreFacts(d);
    var (l, codec) := (d.core.ledger, d.core.rulings.codec);
    SameEnvelope(l, e, codec);
    assert Handoff.Entered(l, codec.id(e), codec) && Handoff.SealAt(l, a);
    assert Handoff.Numbers(l.envelopes, codec.id(e), a, e.sequence);
    Handoff.SealedIsDisposed(l, a, e.sequence, codec);
  }

  lemma RulesOf(d: Deployment)
    requires d.Tuned()
    ensures GatewayRun.KeysNameJobs(d.gateway.rules)
  {
    assert Opened(26);
    KeysNameJobs(d.gateway.rules, d.gateway.enforce, d.gateway.shareHash);
  }

  function Acknowledgements(keys: seq<Key>): seq<GatewayStore.Write> {
    seq(|keys|, i requires 0 <= i < |keys| => GatewayStore.Acknowledge(keys[i]))
  }

  /** An answer that agrees with the journal is a step of Core. */
  lemma CoreStep(w: World, e: Envelope, r: Receipt, rules: Rules, codec: Codec)
    requires IsMade(w.log, e) && Answers(e, r, codec) && (codec.id(e) in w.journal ==> r == w.journal[codec.id(e)])
    ensures Step(w, AtCore(e, r), w.(journal := w.journal[codec.id(e) := r], sent := w.sent + {r}), rules, codec)
  {
  }

  lemma AcceptsNothing(accepted: map<Key, Capture>, ws: seq<GatewayStore.Write>)
    requires |ws| == 1 && !ws[0].Accept?
    ensures AcceptedAll(accepted, ws) == accepted
  {
  }

  lemma FormatAcceptsNothing(accepted: map<Key, Capture>, ws: seq<GatewayStore.Write>)
    requires ws == [] || ws == [WriteFormat]
    ensures AcceptedAll(accepted, ws) == accepted && forall k :: 0 <= k < |ws| ==> !ws[k].Acknowledge?
  {
  }

  /** Reopening the gateway continues the run. */
  method Reopen(
      settings: Settings, store: Store, ghost w: World, ghost rules: Rules, ghost worlds: seq<World>,
      ghost actions: seq<Action>)
    returns (gateway: Gateway.Gateway, ghost later: seq<World>, ghost more: seq<Action>)
    requires Governs(rules, settings.enforce, settings.shareHash) && store == w.gateway
    requires Ran(worlds, actions, rules, settings.link.codec, w)
    ensures fresh(gateway) && gateway.Valid() && gateway.Configured() && gateway.rules == rules
    ensures gateway.store == store.(format := true)
    ensures Ran(worlds + later, actions + more, rules, settings.link.codec, w.(gateway := gateway.store))
    ensures Faithful(actions + more, |actions|, [], gateway.writes)
  {
    KeysNameJobs(rules, settings.enforce, settings.shareHash);
    RanInv(worlds, actions, rules, settings.link.codec, w);
    SoundTyped(store, rules, settings.enforce, settings.shareHash);
    var reopened, _ := Gateway.Open(store, settings.enforce, settings.shareHash, rules);
    gateway := reopened.value;
    FormatAcceptsNothing(w.accepted, gateway.writes);
    assert gateway.writes[0..] == gateway.writes;
    later := RanGateway(worlds, actions, rules, settings.link.codec, w, gateway.trail, gateway.writes, 0);
    more := GatewayActions(gateway.writes[0..]);
    FaithfulStart(actions);
    FaithfulGateway(actions, |actions|, [], [], gateway.writes);
    assert [] + gateway.writes == gateway.writes;
  }

  /**
   The processes over what they had stored, for instance after a crash at any write of any run: everything reopens, and
   the run continues where it was.
   */
  method Restart(settings: Settings, disk: Disk, outbox: set<Envelope>, sent: set<Receipt>, ghost rules: Rules,
                 ghost log: seq<Issued>, ghost history: seq<Hash>, ghost accepted: map<Key, Capture>,
                 ghost worlds: seq<World>, ghost actions: seq<Action>)
    returns (d: Deployment)
    requires Governs(rules, settings.enforce, settings.shareHash) && Operable(settings)
    requires Ran(worlds, actions, rules, settings.link.codec,
                 World(disk.store, disk.spool, log, disk.ledger.journal, sent, accepted))
    requires Client.Indexed(disk.bundles, disk.index) && OnceMade(log, outbox)
    requires Admission.BookOk(Admission.Book(disk.core, disk.ledger, history), settings.rulings)
    ensures fresh(d) && d.Valid() && worlds <= d.worlds && actions <= d.actions && d.accepted == accepted
    ensures d.gateway.store == disk.store.(format := true) && d.client.spool == disk.spool && d.client.log == log
    ensures d.core.ledger.journal == disk.ledger.journal && d.sent == sent
  {
    ghost var w := World(disk.store, disk.spool, log, disk.ledger.journal, sent, accepted);
    KeysNameJobs(rules, settings.enforce, settings.shareHash);
    RanInv(worlds, actions, rules, settings.link.codec, w);
    var gateway, later, more := Reopen(settings, disk.store, w, rules, worlds, actions);
    var client := new Client.OperatorClient(settings.link, settings.connection, disk.bundles, disk.index, disk.spool,
                                            log);
    var core := new Admission.CoreEngine(settings.rulings, disk.core, disk.ledger, history);
    d := new Deployment(gateway, client, core, outbox, sent, accepted, worlds + later, actions + more, |actions|);
  }

  /** The first start, on empty disks. */
  method Launch(settings: Settings) returns (d: Deployment)
    requires Operable(settings)
    ensures fresh(d) && d.Valid() && d.worlds[0] == START && d.accepted == map[]
    ensures d.gateway.store == GatewayStore.EMPTY.(format := true)
    ensures d.client.spool == S.FRESH && d.core.ledger.journal == map[]
  {
    ghost var rules := RulesFor(settings.enforce, settings.shareHash);
    RanStart(rules, settings.link.codec);
    Admission.EmptyBookOk(settings.rulings);
    var disk := Disk(GatewayStore.EMPTY, S.FRESH, Admission.UNUSED, Handoff.BLANK, map[], map[]);
    d := Restart(settings, disk, {}, {}, rules, [], [], map[], [START], []);
  }

  /** A crash after any write of any method so far, and a restart on what was stored then. */
  method CrashAndRestart(
      d: Deployment, ghost k: nat, settings: Settings, disk: Disk, outbox: set<Envelope>, sent: set<Receipt>,
      ghost log: seq<Issued>, ghost history: seq<Hash>, ghost accepted: map<Key, Capture>)
    returns (e: Deployment)
    requires d.Valid() && k <= |d.actions| && d.worlds[k] ==
             World(disk.store, disk.spool, log, disk.ledger.journal, sent, accepted)
    requires settings.link.codec == d.client.link.codec && Operable(settings)
    requires Governs(d.gateway.rules, settings.enforce, settings.shareHash)
    requires Client.Indexed(disk.bundles, disk.index) && OnceMade(log, outbox)
    requires Admission.BookOk(Admission.Book(disk.core, disk.ledger, history), settings.rulings)
    ensures fresh(e) && e.Valid() && d.worlds[..k + 1] <= e.worlds && d.actions[..k] <= e.actions
            && e.accepted == accepted
  {
    RanBefore(d.worlds, d.actions, d.gateway.rules, d.client.link.codec, d.Now(), k);
    e := Restart(settings, disk, outbox, sent, d.gateway.rules, log, history, accepted, d.worlds[..k + 1],
                 d.actions[..k]);
  }
}
