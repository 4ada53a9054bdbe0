/**
 Runs of the gateway (crates/meshmine-gateway/src/lib.rs): any sequence of its
 atomic writes from an empty store. A crash or restart writes nothing, so a
 run covers crashes between any two writes and any number of restarts.
 */
module GatewayRun {
  import opened Wrappers
  import opened GatewayStore
  import opened Traces

  /** One atomic write, made in a state in which the gateway makes it. */
  predicate Step(s: Store, w: Write, t: Store, rules: Rules) { Enabled(s, w, rules) && t == Apply(s, w) }

  function StepOf(rules: Rules): (Store, Write, Store) -> bool {
    (s: Store, w: Write, t: Store) => Step(s, w, t, rules)
  }

  /** The stores passed through and the writes between them. */
  ghost predicate Run(stores: seq<Store>, ws: seq<Write>, rules: Rules) { IsTrace(stores, ws, StepOf(rules)) }

  lemma RunStep(stores: seq<Store>, ws: seq<Write>, rules: Rules, k: nat)
    requires Run(stores, ws, rules) && k < |ws|
    ensures Step(stores[k], ws[k], stores[k + 1], rules)
  {
    assert StepOf(rules)(stores[k], ws[k], stores[k + 1]);
  }

  lemma EmptySound(rules: Rules)
    ensures Sound(EMPTY, rules)
  {
  }

  lemma StepKeepsSound(s: Store, w: Write, t: Store, rules: Rules)
    requires Sound(s, rules) && Step(s, w, t, rules)
    ensures Sound(t, rules)
  {
    WriteKeepsSound(s, w, rules);
  }

  function SoundFor(rules: Rules): Store -> bool { (s: Store) => Sound(s, rules) }

  /** Every store reached in a run, in particular one left by a crash, is sound. */
  lemma RunSound(stores: seq<Store>, ws: seq<Write>, k: nat, rules: Rules)
    requires Run(stores, ws, rules) && Sound(stores[0], rules) && k < |stores|
    ensures Sound(stores[k], rules)
  {
    assert Preserved(StepOf(rules), SoundFor(rules)) by {
      forall s, w, t | SoundFor(rules)(s) && StepOf(rules)(s, w, t) ensures SoundFor(rules)(t) {
        StepKeepsSound(s, w, t, rules);
      }
    }
    Forever(stores, ws, StepOf(rules), SoundFor(rules), 0, k);
  }

  /** A run, a restart on the store it left, and a further run are one run. */
  lemma RunsJoin(stores: seq<Store>, ws: seq<Write>, later: seq<Store>, more: seq<Write>, rules: Rules)
    requires Run(stores, ws, rules) && Run(later, more, rules) && stores[|stores| - 1] == later[0]
    ensures Run(stores + later[1..], ws + more, rules)
  {
    Join(stores, ws, later, more, StepOf(rules));
  }

  // ---- Work keys are accepted once ----

  /** Valid captures with the same key belong to the same job. */
  ghost predicate KeysNameJobs(rules: Rules) {
    forall c, j, d, k :: rules.capture(c, j) && rules.capture(d, k) && rules.key(c) == rules.key(d) ==>
      c.jobId == d.jobId
  }

  /** The key of an accepted capture is remembered, or its job can accept nothing more. */
  predicate Remembered(s: Store, key: Key, id: Id) {
    || id in s.retired
    || exists q :: q in s.jobs && s.jobs[q].id == id && KeyBlocked(s, key, q)
  }

  predicate KeyBlocked(s: Store, key: Key, q: nat) {
    || (key in s.captures && s.captures[key].sequence == q)
    || (key in s.tombstones && s.tombstones[key] == q)
    || (q in s.states && s.states[q].Closed?)
  }

  lemma StillRemembered(t: Store, key: Key, id: Id, q: nat)
    requires q in t.jobs && t.jobs[q].id == id && KeyBlocked(t, key, q)
    ensures Remembered(t, key, id)
  {
  }

  lemma IssueBlocked(s: Store, job: Job, transition: Option<Transition>, rules: Rules, key: Key, q: nat)
    requires HeadOk(s.head, s.states) && job.sequence !in s.jobs && q in s.jobs && KeyBlocked(s, key, q)
    ensures Remembered(Issued(s, job, transition), key, s.jobs[q].id)
  {
    if q in s.states && s.states[q].Closed? {
      HandedClosed(s, transition, q);
    }
    StillRemembered(Issued(s, job, transition), key, s.jobs[q].id, q);
  }

  lemma StateBlocked(s: Store, w: Write, rules: Rules, key: Key, q: nat)
    requires Sound(s, rules) && Enabled(s, w, rules) && (w.WriteFormat? || w.Cancel? || w.Close? || w.MarkRetiring?)
    requires q in s.jobs && KeyBlocked(s, key, q)
    ensures Remembered(Apply(s, w), key, s.jobs[q].id)
  {
    StillRemembered(Apply(s, w), key, s.jobs[q].id, q);
  }

  lemma AcceptBlocked(s: Store, p: Key, c: Capture, rules: Rules, key: Key, q: nat)
    requires MayAccept(s, p, c, rules) && q in s.jobs && KeyBlocked(s, key, q)
    ensures Remembered(Accepted(s, p, c), key, s.jobs[q].id)
  {
    StillRemembered(Accepted(s, p, c), key, s.jobs[q].id, q);
  }

  lemma AcknowledgeBlocked(s: Store, p: Key, key: Key, q: nat)
    requires KeysOk(s.captures, s.tombstones) && MayAcknowledge(s, p) && q in s.jobs && KeyBlocked(s, key, q)
    ensures Remembered(Acknowledged(s, p), key, s.jobs[q].id)
  {
    StillRemembered(Acknowledged(s, p), key, s.jobs[q].id, q);
  }

  /** Tombstones are dropped only once their job is closed. */
  lemma DropBlocked(s: Store, p: nat, keys: set<Key>, rules: Rules, key: Key, q: nat)
    requires Sound(s, rules) && MayDrop(s, p, keys) && q in s.jobs && KeyBlocked(s, key, q)
    ensures Remembered(s.(tombstones := s.tombstones - keys), key, s.jobs[q].id)
  {
    assert RetiringRecordOk(p, s.retiring[p], s.jobs, s.states, s.captures);
    StillRemembered(s.(tombstones := s.tombstones - keys), key, s.jobs[q].id, q);
  }

  lemma RetireRemembers(s: Store, p: nat, rules: Rules, key: Key, q: nat)
    requires Sound(s, rules) && MayRetire(s, p) && q in s.jobs && KeyBlocked(s, key, q)
    ensures Remembered(Retired(s, p), key, s.jobs[q].id)
  {
    assert RetiringRecordOk(p, s.retiring[p], s.jobs, s.states, s.captures);
    if q != p {
      StillRemembered(Retired(s, p), key, s.jobs[q].id, q);
    }
  }

  lemma RememberedKept(s: Store, w: Write, rules: Rules, key: Key, id: Id)
    requires Sound(s, rules) && Enabled(s, w, rules) && Remembered(s, key, id)
    ensures Remembered(Apply(s, w), key, id)
  {
    if id !in s.retired {
      var q :| q in s.jobs && s.jobs[q].id == id && KeyBlocked(s, key, q);
      match w {
        case Issue(job, transition) =>
          IssueJobs(s, job, transition, rules);
          IssueBlocked(s, job, transition, rules, key, q);
        case DropTombstones(p, keys) => DropBlocked(s, p, keys, rules, key, q);
        case Retire(p) => RetireRemembers(s, p, rules, key, q);
        case Accept(p, c) => AcceptBlocked(s, p, c, rules, key, q);
        case Acknowledge(p) => AcknowledgeBlocked(s, p, key, q);
        case _ => StateBlocked(s, w, rules, key, q);
      }
    }
  }

  /** A remembered key is refused. */
  lemma RememberedRefused(s: Store, key: Key, c: Capture, rules: Rules)
    requires Sound(s, rules) && Remembered(s, key, c.jobId)
    ensures !MayAccept(s, key, c, rules)
  {
  }

  lemma AcceptRemembers(s: Store, key: Key, c: Capture, rules: Rules)
    requires MayAccept(s, key, c, rules)
    ensures Remembered(Accepted(s, key, c), key, c.jobId)
  {
    StillRemembered(Accepted(s, key, c), key, c.jobId, c.sequence);
  }

  lemma StepRemembers(s: Store, w: Write, t: Store, rules: Rules, key: Key, id: Id)
    requires Sound(s, rules) && Step(s, w, t, rules)
    ensures w.Accept? ==> Remembered(t, w.key, w.capture.jobId)
    ensures Remembered(s, key, id) ==> Remembered(t, key, id)
  {
    if w.Accept? {
      AcceptRemembers(s, w.key, w.capture, rules);
    }
    if Remembered(s, key, id) {
      RememberedKept(s, w, rules, key, id);
    }
  }

  function RememberedFor(rules: Rules, key: Key, id: Id): Store -> bool {
    (s: Store) => Sound(s, rules) && Remembered(s, key, id)
  }

  lemma RememberedLater(stores: seq<Store>, ws: seq<Write>, i: nat, j: nat, rules: Rules)
    requires Run(stores, ws, rules) && Sound(stores[0], rules) && i < j < |stores| && ws[i].Accept?
    ensures Remembered(stores[j], ws[i].key, ws[i].capture.jobId)
  {
    var inv := RememberedFor(rules, ws[i].key, ws[i].capture.jobId);
    assert Preserved(StepOf(rules), inv) by {
      forall s, w, t | inv(s) && StepOf(rules)(s, w, t) ensures inv(t) {
        StepKeepsSound(s, w, t, rules);
        StepRemembers(s, w, t, rules, ws[i].key, ws[i].capture.jobId);
      }
    }
    AcceptedAt(stores, ws, i, rules);
    Forever(stores, ws, StepOf(rules), inv, i + 1, j);
  }

  lemma AcceptedAt(stores: seq<Store>, ws: seq<Write>, i: nat, rules: Rules)
    requires Run(stores, ws, rules) && Sound(stores[0], rules) && i < |ws| && ws[i].Accept?
    ensures RememberedFor(rules, ws[i].key, ws[i].capture.jobId)(stores[i + 1])
  {
    RunSound(stores, ws, i, rules);
    RunSound(stores, ws, i + 1, rules);
    RunStep(stores, ws, rules, i);
    StepRemembers(stores[i], ws[i], stores[i + 1], rules, ws[i].key, ws[i].capture.jobId);
  }

  /**
   Over a whole run, with any restarts and crashes and across the deletion of
   tombstones by retirement, no work key is accepted twice.
   */
  lemma AcceptedOnce(stores: seq<Store>, ws: seq<Write>, i: nat, j: nat, rules: Rules)
    requires Run(stores, ws, rules) && stores[0] == EMPTY && KeysNameJobs(rules)
    requires i < j < |ws| && ws[i].Accept? && ws[j].Accept?
    ensures ws[i].key != ws[j].key
  {
    EmptySound(rules);
    RememberedLater(stores, ws, i, j, rules);
    RunSound(stores, ws, j, rules);
    RunStep(stores, ws, rules, i);
    RunStep(stores, ws, rules, j);
    SameKeySameJob(stores[i], ws[i], stores[j], ws[j], rules);
    if ws[i].key == ws[j].key {
      RememberedRefused(stores[j], ws[j].key, ws[j].capture, rules);
    }
  }

  lemma SameKeySameJob(s: Store, v: Write, t: Store, w: Write, rules: Rules)
    requires KeysNameJobs(rules) && v.Accept? && w.Accept? && Enabled(s, v, rules) && Enabled(t, w, rules)
    ensures v.key == w.key ==> v.capture.jobId == w.capture.jobId
  {
    assert rules.capture(v.capture, s.jobs[v.capture.sequence]) && rules.capture(w.capture, t.jobs[w.capture.sequence]);
  }

  /** The store holds a capture or a tombstone with this key. */
  predicate Seen(s: Store, key: Key) { key in s.captures || key in s.tombstones }

  lemma SeenBefore(s: Store, w: Write, key: Key)
    requires Seen(Apply(s, w), key) && !(w.Accept? && w.key == key)
    ensures Seen(s, key)
  {
  }

  /** What a store holds was accepted in the run that led to it. */
  lemma {:induction false} SeenWasAccepted(stores: seq<Store>, ws: seq<Write>, k: nat, key: Key, rules: Rules)
    returns (i: nat)
    requires Run(stores, ws, rules) && stores[0] == EMPTY && k < |stores| && Seen(stores[k], key)
    ensures i < k && ws[i].Accept? && ws[i].key == key
    decreases k
  {
    assert k > 0;
    RunStep(stores, ws, rules, k - 1);
    if ws[k - 1].Accept? && ws[k - 1].key == key {
      i := k - 1;
    } else {
      SeenBefore(stores[k - 1], ws[k - 1], key);
      i := SeenWasAccepted(stores, ws, k - 1, key, rules);
    }
  }

  // ---- Job ids and sequence numbers are used once ----

  predicate Spent(s: Store, id: Id, q: nat) { q < Next(s.next) && (id in s.retired || LiveId(s.jobs, id)) }

  lemma LiveAfterIssue(jobs: map<nat, Job>, q: nat, job: Job, id: Id)
    requires q !in jobs
    ensures LiveId(jobs[q := job], job.id) && (LiveId(jobs, id) ==> LiveId(jobs[q := job], id))
  {
    var jobs' := jobs[q := job];
    assert jobs'[q].id == job.id;
    if LiveId(jobs, id) {
      var p :| p in jobs && jobs[p].id == id;
      assert jobs'[p].id == id;
    }
  }

  lemma SpentByIssue(s: Store, job: Job, transition: Option<Transition>, rules: Rules, id: Id, q: nat)
    requires Sound(s, rules) && MayIssue(s, job, transition, rules)
    ensures Spent(Issued(s, job, transition), job.id, job.sequence)
    ensures Spent(s, id, q) ==> Spent(Issued(s, job, transition), id, q)
  {
    IssueJobs(s, job, transition, rules);
    LiveAfterIssue(s.jobs, job.sequence, job, id);
  }

  lemma SpentByRetire(s: Store, p: nat, rules: Rules, id: Id, q: nat)
    requires Sound(s, rules) && MayRetire(s, p) && Spent(s, id, q)
    ensures Spent(Retired(s, p), id, q)
  {
    assert RetiringRecordOk(p, s.retiring[p], s.jobs, s.states, s.captures);
    if LiveId(s.jobs, id) {
      var r :| r in s.jobs && s.jobs[r].id == id;
      assert r != p ==> (s.jobs - {p})[r].id == id;
    }
  }

  lemma StepSpends(s: Store, w: Write, t: Store, rules: Rules, id: Id, q: nat)
    requires Sound(s, rules) && Step(s, w, t, rules)
    ensures w.Issue? ==> Spent(t, w.job.id, w.job.sequence)
    ensures Spent(s, id, q) ==> Spent(t, id, q)
  {
    if w.Issue? {
      SpentByIssue(s, w.job, w.transition, rules, id, q);
    } else if w.Retire? {
      if Spent(s, id, q) {
        SpentByRetire(s, w.sequence, rules, id, q);
      }
    } else {
      assert t.jobs == s.jobs && t.retired == s.retired && t.next == s.next;
    }
  }

  function SpentFor(rules: Rules, id: Id, q: nat): Store -> bool { (s: Store) => Sound(s, rules) && Spent(s, id, q) }

  lemma SpentLater(stores: seq<Store>, ws: seq<Write>, i: nat, j: nat, rules: Rules)
    requires Run(stores, ws, rules) && Sound(stores[0], rules) && i < j < |stores| && ws[i].Issue?
    ensures Spent(stores[j], ws[i].job.id, ws[i].job.sequence)
  {
    var inv := SpentFor(rules, ws[i].job.id, ws[i].job.sequence);
    assert Preserved(StepOf(rules), inv) by {
      forall s, w, t | inv(s) && StepOf(rules)(s, w, t) ensures inv(t) {
        StepKeepsSound(s, w, t, rules);
        StepSpends(s, w, t, rules, ws[i].job.id, ws[i].job.sequence);
      }
    }
    IssuedAt(stores, ws, i, rules);
    Forever(stores, ws, StepOf(rules), inv, i + 1, j);
  }

  lemma IssuedAt(stores: seq<Store>, ws: seq<Write>, i: nat, rules: Rules)
    requires Run(stores, ws, rules) && Sound(stores[0], rules) && i < |ws| && ws[i].Issue?
    ensures SpentFor(rules, ws[i].job.id, ws[i].job.sequence)(stores[i + 1])
  {
    RunSound(stores, ws, i, rules);
    RunSound(stores, ws, i + 1, rules);
    RunStep(stores, ws, rules, i);
    StepSpends(stores[i], ws[i], stores[i + 1], rules, ws[i].job.id, ws[i].job.sequence);
  }

  /** A job id, once issued, is never issued again, and sequence numbers strictly grow. */
  lemma IssuedOnce(stores: seq<Store>, ws: seq<Write>, i: nat, j: nat, rules: Rules)
    requires Run(stores, ws, rules) && stores[0] == EMPTY && i < j < |ws| && ws[i].Issue? && ws[j].Issue?
    ensures ws[i].job.id != ws[j].job.id && ws[i].job.sequence < ws[j].job.sequence
  {
    EmptySound(rules);
    SpentLater(stores, ws, i, j, rules);
    RunStep(stores, ws, rules, j);
  }
}
