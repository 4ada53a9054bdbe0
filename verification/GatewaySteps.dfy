/**
 What each write does to the gateway's memory (crates/meshmine-gateway/src/lib.rs),
 on values: store and memory before, store and memory after.
 */
module GatewaySteps {
  import opened Wrappers
  import opened GatewayStore
  import opened GatewayMemory

  // ---- Store and memory agree ----
  //
  // Each part is guarded by a number, so that a proof unfolds only the parts it
  // asks for by mentioning Opened of that number.

  ghost predicate SoundPart(s: Store, rules: Rules) {
    forall i: int {:trigger Opened(i)} :: Opened(i) && i == 1 ==> Sound(s, rules)
  }

  ghost predicate JobsPart(s: Store, m: Memory) {
    forall i: int {:trigger Opened(i)} :: Opened(i) && i == 2 ==>
      MirrorsJobs(s.jobs, s.states, m.jobs) && m.current == CurrentOf(s.jobs, s.head)
  }

  ghost predicate SeenPart(s: Store, m: Memory) {
    forall i: int {:trigger Opened(i)} :: Opened(i) && i == 3 ==> m.seen == s.captures.Keys + s.tombstones.Keys
  }

  ghost predicate QueuePart(s: Store, m: Memory, rules: Rules) {
    forall i: int {:trigger Opened(i)} :: Opened(i) && i == 4 ==>
      MirrorsQueue(s.captures, m.forwarded, m.indexes, rules.key)
  }

  ghost predicate PendingPart(s: Store, m: Memory) {
    forall i: int {:trigger Opened(i)} :: Opened(i) && i == 5 ==> MirrorsPending(s.captures, m.pending)
  }

  ghost predicate TombstonesPart(s: Store, m: Memory) {
    forall i: int {:trigger Opened(i)} :: Opened(i) && i == 6 ==> MirrorsTombstones(s.tombstones, m.tombstones)
  }

  /** The store is sound and the memory is what reopening it would build, up to the order of the queue. */
  ghost predicate Consistent(s: Store, m: Memory, rules: Rules) {
    && s.format && m.retiring == s.retiring.Keys
    && SoundPart(s, rules) && JobsPart(s, m) && SeenPart(s, m) && QueuePart(s, m, rules) && PendingPart(s, m)
       && TombstonesPart(s, m)
  }

  lemma ConsistentMeans(s: Store, m: Memory, rules: Rules)
    ensures Consistent(s, m, rules) <==> s.format && Sound(s, rules) && Mirrors(s, m, rules.key)
  {
    assert Opened(1) && Opened(2) && Opened(3) && Opened(4) && Opened(5) && Opened(6);
  }

  lemma SoundStep(s: Store, rules: Rules, w: Write)
    requires SoundPart(s, rules) && Enabled(s, w, rules)
    ensures SoundPart(Apply(s, w), rules)
  {
    assert Opened(1);
    WriteKeepsSound(s, w, rules);
  }

  // ---- Reading ----

  lemma NamedEntry(jobs: map<nat, Job>, states: map<nat, JobState>, memory: map<Id, Entry>, id: Id)
    requires MirrorsJobs(jobs, states, memory) && id in memory
    ensures var q := memory[id].job.sequence;
            q in jobs && q in states && jobs[q] == memory[id].job && jobs[q].id == id && states[q] == memory[id].state
  {
    assert NamedBy(jobs, memory, id);
    assert EntryFor(jobs, states, memory, memory[id].job.sequence);
  }

  /** A job in memory is the stored one, and is active exactly when it is the current one. */
  lemma JobFacts(s: Store, m: Memory, rules: Rules, id: Id)
    requires Consistent(s, m, rules) && id in m.jobs
    ensures var q := m.jobs[id].job.sequence;
            && q in s.jobs && q in s.states && s.jobs[q] == m.jobs[id].job && s.jobs[q].id == id
               && s.states[q] == m.jobs[id].state
            && ValidState(m.jobs[id].job, m.jobs[id].state)
            && (m.jobs[id].state.Active? <==> s.head == Some(q)) && (s.head == Some(q) <==> m.current == Some(id))
  {
    assert Opened(1) && Opened(2);
    NamedEntry(s.jobs, s.states, m.jobs, id);
    var q := m.jobs[id].job.sequence;
    assert JobOk(q, s.jobs[q], s.states[q], rules);
  }

  lemma CurrentFacts(s: Store, m: Memory, rules: Rules)
    requires Consistent(s, m, rules)
    ensures (m.current.None? <==> s.head.None?) && (m.current.Some? ==> m.current.value in m.jobs)
    ensures m.current.Some? ==> s.head == Some(m.jobs[m.current.value].job.sequence)
  {
    assert Opened(1) && Opened(2);
    if s.head.Some? {
      assert EntryFor(s.jobs, s.states, m.jobs, s.head.value);
      assert JobOk(s.head.value, s.jobs[s.head.value], s.states[s.head.value], rules);
    }
  }

  lemma IdsFacts(s: Store, m: Memory, rules: Rules)
    requires Consistent(s, m, rules)
    ensures UniqueIds(s.jobs) && HistoryOk(s.jobs, s.next, s.retired)
  {
    assert Opened(1);
  }

  // ---- Job states ----

  lemma StateMirrors(s: Store, m: Memory, rules: Rules, id: Id, state: JobState, head: Option<nat>)
    requires Consistent(s, m, rules) && id in m.jobs && head == if s.head == Some(m.jobs[id].job.sequence) then None
             else s.head
    ensures JobsPart(s.(states := s.states[m.jobs[id].job.sequence := state], head := head),
                     m.(jobs := m.jobs[id := Entry(m.jobs[id].job, state)], current := if m.current == Some(id)
                        then None else m.current))
  {
    JobFacts(s, m, rules, id);
    IdsFacts(s, m, rules);
    assert Opened(2);
    MirrorState(s.jobs, s.states, m.jobs, m.jobs[id].job.sequence, state);
  }

  lemma CancelStep(s: Store, m: Memory, rules: Rules, id: Id, cutoff: nat, end: nat)
    requires Consistent(s, m, rules) && id in m.jobs && m.jobs[id].state.Active?
             && ValidState(m.jobs[id].job, Grace(cutoff, end))
    ensures var q := m.jobs[id].job.sequence;
            && Enabled(s, Cancel(q, cutoff, end), rules) && m.current == Some(id)
            && Consistent(Apply(s, Cancel(q, cutoff, end)),
                          m.(jobs := m.jobs[id := Entry(m.jobs[id].job, Grace(cutoff, end))], current := None), rules)
  {
    JobFacts(s, m, rules, id);
    SoundStep(s, rules, Cancel(m.jobs[id].job.sequence, cutoff, end));
    StateMirrors(s, m, rules, id, Grace(cutoff, end), None);
  }

  lemma CloseStep(s: Store, m: Memory, rules: Rules, id: Id)
    requires Consistent(s, m, rules) && id in m.jobs && !m.jobs[id].state.Closed?
    ensures var q := m.jobs[id].job.sequence;
            && Enabled(s, Close(q), rules)
            && Consistent(Apply(s, Close(q)),
                          m.(jobs := m.jobs[id := Entry(m.jobs[id].job, Closed)], current := if m.current == Some(id)
                             then None else m.current),
                          rules)
  {
    JobFacts(s, m, rules, id);
    var q := m.jobs[id].job.sequence;
    SoundStep(s, rules, Close(q));
    StateMirrors(s, m, rules, id, Closed, if s.head == Some(q) then None else s.head);
  }

  // ---- Issuing ----

  lemma LiveIsNamed(jobs: map<nat, Job>, states: map<nat, JobState>, memory: map<Id, Entry>, id: Id)
    requires MirrorsJobs(jobs, states, memory)
    ensures LiveId(jobs, id) <==> id in memory
  {
    if LiveId(jobs, id) {
      var q :| q in jobs && jobs[q].id == id;
      assert EntryFor(jobs, states, memory, q);
    }
    if id in memory {
      assert NamedBy(jobs, memory, id);
    }
  }

  /** The entries once the old current job has been given its grace period. */
  function HandedEntries(m: Memory, transition: Option<Transition>): map<Id, Entry> {
    if m.current.Some? && m.current.value in m.jobs && transition.Some?
    then m.jobs[m.current.value := Entry(m.jobs[m.current.value].job,
                                         Grace(transition.value.creditCutoffMs, transition.value.submissionEndMs))]
    else m.jobs
  }

  predicate MayHandOver(m: Memory, job: Job, transition: Option<Transition>) {
    match m.current
    case None => transition == None
    case Some(id) =>
      && transition.Some? && id in m.jobs
      && m.jobs[id].job.issuedMs <= transition.value.creditCutoffMs <= job.issuedMs
      && transition.value.creditCutoffMs <= transition.value.submissionEndMs <= m.jobs[id].job.submissionEndMs
  }

  lemma IssueAllowed(s: Store, m: Memory, rules: Rules, job: Job, transition: Option<Transition>)
    requires Consistent(s, m, rules) && job.id !in m.jobs && job.id !in s.retired && |m.jobs| < MAX_ASSIGNMENTS
    requires job.sequence == Next(s.next) && job.sequence + 1 < U64_LIMIT && rules.job(job)
             && MayHandOver(m, job, transition)
    ensures Enabled(s, Issue(job, transition), rules) && job.sequence !in s.jobs
  {
    CurrentFacts(s, m, rules);
    IdsFacts(s, m, rules);
    if m.current.Some? {
      JobFacts(s, m, rules, m.current.value);
    }
    assert Opened(2);
    LiveIsNamed(s.jobs, s.states, m.jobs, job.id);
  }

  lemma HandedMirrors(s: Store, m: Memory, rules: Rules, transition: Option<Transition>)
    requires Consistent(s, m, rules)
    ensures MirrorsJobs(s.jobs, Handed(s, transition), HandedEntries(m, transition))
    ensures HandedEntries(m, transition).Keys == m.jobs.Keys
  {
    CurrentFacts(s, m, rules);
    IdsFacts(s, m, rules);
    if m.current.Some? {
      JobFacts(s, m, rules, m.current.value);
    }
    assert Opened(2);
    if m.current.Some? && transition.Some? {
      MirrorState(s.jobs, s.states, m.jobs, s.head.value,
                  Grace(transition.value.creditCutoffMs, transition.value.submissionEndMs));
    }
  }

  lemma IssueStep(s: Store, m: Memory, rules: Rules, job: Job, transition: Option<Transition>)
    requires Consistent(s, m, rules) && Enabled(s, Issue(job, transition), rules) && job.sequence !in s.jobs
             && job.id !in m.jobs
    ensures Consistent(Apply(s, Issue(job, transition)),
                       m.(jobs := HandedEntries(m, transition)[job.id := Entry(job, Active)], current := Some(job.id)),
                         rules)
  {
    SoundStep(s, rules, Issue(job, transition));
    HandedMirrors(s, m, rules, transition);
    MirrorAdd(s.jobs, Handed(s, transition), HandedEntries(m, transition), job.sequence, job, Active);
  }

  // ---- Retiring ----

  /** A closed job without pending captures, as memory sees it. */
  predicate Retirable(m: Memory, id: Id) {
    id in m.jobs && m.jobs[id].state.Closed? && m.jobs[id].job.sequence !in m.pending
  }

  lemma PendingFacts(s: Store, m: Memory, rules: Rules, q: nat)
    requires Consistent(s, m, rules)
    ensures q in m.pending <==> Pending(s.captures, q)
  {
    assert Opened(5);
    PendingMeans(s.captures, m.pending, q);
  }

  lemma MarkEnabled(s: Store, m: Memory, rules: Rules, id: Id)
    requires Consistent(s, m, rules) && Retirable(m, id) && m.jobs[id].job.sequence !in m.retiring
    ensures Enabled(s, MarkRetiring(m.jobs[id].job.sequence), rules)
  {
    JobFacts(s, m, rules, id);
    PendingFacts(s, m, rules, m.jobs[id].job.sequence);
  }

  lemma MarkStep(s: Store, m: Memory, rules: Rules, id: Id)
    requires Consistent(s, m, rules) && Retirable(m, id) && m.jobs[id].job.sequence !in m.retiring
    ensures var q := m.jobs[id].job.sequence;
            && Enabled(s, MarkRetiring(q), rules)
            && Consistent(Apply(s, MarkRetiring(q)), m.(retiring := m.retiring + {q}), rules)
  {
    var q := m.jobs[id].job.sequence;
    MarkEnabled(s, m, rules, id);
    SoundStep(s, rules, MarkRetiring(q));
    SameParts(s, Apply(s, MarkRetiring(q)), m, m.(retiring := m.retiring + {q}), rules);
  }

  /** Writes to other namespaces leave the indexes as they are. */
  lemma SameParts(s: Store, t: Store, m: Memory, n: Memory, rules: Rules)
    requires Consistent(s, m, rules) && t.jobs == s.jobs && t.states == s.states && t.head == s.head
    requires t.captures == s.captures && t.tombstones == s.tombstones && n == m.(retiring := n.retiring)
    ensures JobsPart(t, n) && SeenPart(t, n) && QueuePart(t, n, rules) && PendingPart(t, n) && TombstonesPart(t, n)
  {
    assert Opened(2) && Opened(3) && Opened(4) && Opened(5) && Opened(6);
  }

  lemma RetiringFacts(s: Store, m: Memory, rules: Rules, id: Id)
    requires Consistent(s, m, rules) && id in m.jobs && m.jobs[id].job.sequence in m.retiring
    ensures var q := m.jobs[id].job.sequence;
            q in s.retiring && s.retiring[q] == id && id !in s.retired && !Pending(s.captures, q) && q in s.states
              && s.states[q].Closed?
  {
    JobFacts(s, m, rules, id);
    assert Opened(1);
    var q := m.jobs[id].job.sequence;
    assert RetiringRecordOk(q, s.retiring[q], s.jobs, s.states, s.captures);
  }

  lemma TombstoneFacts(s: Store, m: Memory, rules: Rules, q: nat)
    requires Consistent(s, m, rules)
    ensures q in m.tombstones <==> Tombstoned(s.tombstones, q)
    ensures q in m.tombstones ==> m.tombstones[q] != {}
  {
    assert Opened(6);
    TombstonesMean(s.tombstones, m.tombstones, q);
  }

  lemma DropTombstonesMirror(s: Store, m: Memory, rules: Rules, q: nat, keys: set<Key>)
    requires Consistent(s, m, rules) && q in m.tombstones && keys <= m.tombstones[q]
    ensures forall k :: k in keys ==> k in s.tombstones && s.tombstones[k] == q
    ensures TombstonesPart(s.(tombstones := s.tombstones - keys),
                           m.(seen := m.seen - keys, tombstones := TombstonesDown(m.tombstones, q, keys)))
  {
    assert Opened(6);
    TombstonesRemove(s.tombstones, m.tombstones, q, keys);
  }

  lemma KeysFacts(s: Store, m: Memory, rules: Rules)
    requires Consistent(s, m, rules)
    ensures KeysOk(s.captures, s.tombstones) && m.seen == s.captures.Keys + s.tombstones.Keys
  {
    assert Opened(1) && Opened(3);
  }

  lemma DropSeen(s: Store, m: Memory, rules: Rules, keys: set<Key>)
    requires Consistent(s, m, rules) && keys <= s.tombstones.Keys
    ensures m.seen - keys == s.captures.Keys + (s.tombstones - keys).Keys
  {
    KeysFacts(s, m, rules);
    assert (s.tombstones - keys).Keys == s.tombstones.Keys - keys;
    MinusSecond(s.captures.Keys, s.tombstones.Keys, keys);
  }

  lemma MinusSecond(a: set<Key>, b: set<Key>, keys: set<Key>)
    requires a !! b && keys <= b
    ensures a + b - keys == a + (b - keys)
  {
  }

  lemma DropStep(s: Store, m: Memory, rules: Rules, q: nat, keys: set<Key>)
    requires Consistent(s, m, rules) && q in m.retiring && q in m.tombstones && keys <= m.tombstones[q]
    ensures Enabled(s, DropTombstones(q, keys), rules)
    ensures Consistent(Apply(s, DropTombstones(q, keys)),
                       m.(seen := m.seen - keys, tombstones := TombstonesDown(m.tombstones, q, keys)), rules)
  {
    DropTombstonesMirror(s, m, rules, q, keys);
    SoundStep(s, rules, DropTombstones(q, keys));
    DropSeen(s, m, rules, keys);
    var t, n := Apply(s, DropTombstones(q, keys)),
      m.(seen := m.seen - keys, tombstones := TombstonesDown(m.tombstones, q, keys));
    SameJobs(s, t, m, n, rules);
    SameCaptures(s, t, m, n, rules);
  }

  lemma SameJobs(s: Store, t: Store, m: Memory, n: Memory, rules: Rules)
    requires Consistent(s, m, rules) && t.jobs == s.jobs && t.states == s.states && t.head == s.head
    requires n.jobs == m.jobs && n.current == m.current
    ensures JobsPart(t, n)
  {
    assert Opened(2);
  }

  lemma SameCaptures(s: Store, t: Store, m: Memory, n: Memory, rules: Rules)
    requires Consistent(s, m, rules) && t.captures == s.captures
    requires n.forwarded == m.forwarded && n.indexes == m.indexes && n.pending == m.pending
    ensures QueuePart(t, n, rules) && PendingPart(t, n)
  {
    assert Opened(4) && Opened(5);
  }

  lemma SameTombstones(s: Store, t: Store, m: Memory, n: Memory, rules: Rules)
    requires Consistent(s, m, rules) && t.tombstones == s.tombstones && n.tombstones == m.tombstones
    ensures TombstonesPart(t, n)
  {
    assert Opened(6);
  }

  lemma SameSeen(s: Store, t: Store, m: Memory, n: Memory, rules: Rules)
    requires Consistent(s, m, rules) && t.captures == s.captures && t.tombstones == s.tombstones && n.seen == m.seen
    ensures SeenPart(t, n)
  {
    assert Opened(3);
  }

  lemma RetireMirrors(s: Store, m: Memory, rules: Rules, id: Id, t: Store, n: Memory)
    requires Consistent(s, m, rules) && id in m.jobs && m.jobs[id].state.Closed? && t.head == s.head
    requires var q := m.jobs[id].job.sequence; t.jobs == s.jobs - {q} && t.states == s.states - {q}
    requires n.jobs == m.jobs - {id} && n.current == m.current
    ensures JobsPart(t, n)
  {
    RetireFacts(s, m, rules, id);
    RemoveJob(s, m, id, m.jobs[id].job.sequence, t, n);
  }

  lemma RetireFacts(s: Store, m: Memory, rules: Rules, id: Id)
    requires Consistent(s, m, rules) && id in m.jobs && m.jobs[id].state.Closed?
    ensures var q := m.jobs[id].job.sequence;
            q in s.jobs && s.jobs[q].id == id && s.head != Some(q) && UniqueIds(s.jobs)
  {
    JobFacts(s, m, rules, id);
    IdsFacts(s, m, rules);
  }

  lemma RemoveJob(s: Store, m: Memory, id: Id, q: nat, t: Store, n: Memory)
    requires JobsPart(s, m) && UniqueIds(s.jobs) && q in s.jobs && s.jobs[q].id == id && s.head != Some(q)
    requires t.head == s.head && t.jobs == s.jobs - {q} && t.states == s.states - {q}
    requires n.jobs == m.jobs - {id} && n.current == m.current
    ensures JobsPart(t, n)
  {
    assert Opened(2);
    MirrorRemove(s.jobs, s.states, m.jobs, q);
    assert CurrentOf(t.jobs, t.head) == CurrentOf(s.jobs, s.head);
  }

  lemma RetireStep(s: Store, m: Memory, rules: Rules, id: Id)
    requires Consistent(s, m, rules) && id in m.jobs && m.jobs[id].job.sequence in m.retiring
    requires m.jobs[id].job.sequence !in m.tombstones
    ensures var q := m.jobs[id].job.sequence;
            && Enabled(s, Retire(q), rules)
            && Consistent(Apply(s, Retire(q)),
                          m.(jobs := m.jobs - {id}, pending := m.pending - {q}, retiring := m.retiring - {q}), rules)
  {
    var q := m.jobs[id].job.sequence;
    RetiringFacts(s, m, rules, id);
    TombstoneFacts(s, m, rules, q);
    PendingFacts(s, m, rules, q);
    JobFacts(s, m, rules, id);
    SoundStep(s, rules, Retire(q));
    assert m.pending - {q} == m.pending;
    var t, n := Apply(s, Retire(q)), m.(jobs := m.jobs - {id}, pending := m.pending - {q},
                                        retiring := m.retiring - {q});
    assert t.retiring.Keys == s.retiring.Keys - {q};
    RetireMirrors(s, m, rules, id, t, n);
    SameCaptures(s, t, m, n, rules);
    SameTombstones(s, t, m, n, rules);
    SameSeen(s, t, m, n, rules);
  }

  // ---- Captures ----

  lemma AcceptAllowed(s: Store, m: Memory, rules: Rules, c: Capture)
    requires Consistent(s, m, rules) && c.jobId in m.jobs && !m.jobs[c.jobId].state.Closed?
    requires ValidCapture(c, m.jobs[c.jobId].job, rules) && rules.key(c) !in m.seen && |m.seen| < MAX_CAPTURES
    ensures Enabled(s, Accept(rules.key(c), c), rules)
  {
    JobFacts(s, m, rules, c.jobId);
    KeysFacts(s, m, rules);
    SeenSize(s, m.seen);
  }

  lemma AcceptMirrors(s: Store, m: Memory, rules: Rules, c: Capture, t: Store, n: Memory)
    requires Consistent(s, m, rules) && rules.key(c) !in s.captures && t.captures == s.captures[rules.key(c) := c]
    requires n.forwarded == m.forwarded + [c] && n.indexes == m.indexes[rules.key(c) := |m.forwarded|]
    requires n.pending == CountUp(m.pending, c.sequence)
    ensures QueuePart(t, n, rules) && PendingPart(t, n)
  {
    assert Opened(4) && Opened(5);
    QueuePush(s.captures, m.forwarded, m.indexes, rules.key, c);
    PendingAdd(s.captures, m.pending, rules.key(c), c);
  }

  lemma AcceptSeen(s: Store, m: Memory, k: Key, c: Capture, t: Store, n: Memory)
    requires SeenPart(s, m) && t.captures == s.captures[k := c] && t.tombstones == s.tombstones
             && n.seen == m.seen + {k}
    ensures SeenPart(t, n)
  {
    assert Opened(3);
    assert t.captures.Keys == s.captures.Keys + {k};
    AddKey(s.captures.Keys, s.tombstones.Keys, k);
  }

  lemma AddKey(a: set<Key>, b: set<Key>, k: Key)
    ensures (a + {k}) + b == a + b + {k}
  {
  }

  lemma AcceptStep(s: Store, m: Memory, rules: Rules, c: Capture)
    requires Consistent(s, m, rules) && Enabled(s, Accept(rules.key(c), c), rules)
    ensures var k := rules.key(c);
            Consistent(Apply(s, Accept(k, c)),
                       m.(seen := m.seen + {k}, indexes := m.indexes[k := |m.forwarded|],
                          forwarded := m.forwarded + [c],
                          pending := CountUp(m.pending, c.sequence)), rules)
  {
    var k := rules.key(c);
    var t := Apply(s, Accept(k, c));
    var n := m.(seen := m.seen + {k}, indexes := m.indexes[k := |m.forwarded|], forwarded := m.forwarded + [c],
                pending := CountUp(m.pending, c.sequence));
    SoundStep(s, rules, Accept(k, c));
    AcceptMirrors(s, m, rules, c, t, n);
    AcceptSeen(s, m, k, c, t, n);
    SameJobs(s, t, m, n, rules);
    SameTombstones(s, t, m, n, rules);
  }

  lemma IndexFacts(s: Store, m: Memory, rules: Rules, k: Key)
    requires Consistent(s, m, rules)
    ensures k in m.indexes <==> k in s.captures
    ensures k in m.indexes ==> m.indexes[k] < |m.forwarded| && m.forwarded[m.indexes[k]] == s.captures[k]
                               && rules.key(s.captures[k]) == k
    ensures k in m.indexes ==> s.captures[k].sequence in m.pending && m.pending[s.captures[k].sequence] > 0
  {
    assert Opened(4) && Opened(5);
    if k in s.captures {
      assert IndexedAt(s.captures, m.forwarded, m.indexes, k);
      PendingRemove(s.captures, m.pending, k);
    }
  }

  lemma TombstoneNamed(s: Store, m: Memory, rules: Rules, k: Key)
    requires Consistent(s, m, rules) && k in s.tombstones
    ensures exists id :: id in m.jobs && m.jobs[id].job.sequence == s.tombstones[k]
  {
    assert Opened(1) && Opened(2);
    var q := s.tombstones[k];
    assert EntryFor(s.jobs, s.states, m.jobs, q) && JobOk(q, s.jobs[q], s.states[q], rules);
    assert m.jobs[s.jobs[q].id].job.sequence == q;
  }

  lemma AcknowledgeMirrors(s: Store, m: Memory, rules: Rules, k: Key, t: Store, n: Memory)
    requires Consistent(s, m, rules) && k in s.captures && k in m.indexes && m.indexes[k] < |m.forwarded|
    requires t.captures == s.captures - {k} && n.forwarded == SwapRemove(m.forwarded, m.indexes[k])
    requires n.indexes == IndexAfter(m.indexes, k, n.forwarded, m.indexes[k], rules.key)
    ensures QueuePart(t, n, rules)
  {
    assert Opened(4);
    QueueSwapRemove(s.captures, m.forwarded, m.indexes, rules.key, k);
  }

  lemma AcknowledgeCounts(s: Store, m: Memory, rules: Rules, k: Key, t: Store, n: Memory)
    requires Consistent(s, m, rules) && k in s.captures && s.captures[k].sequence in m.pending
             && m.pending[s.captures[k].sequence] > 0
    requires t.captures == s.captures - {k} && t.tombstones == s.tombstones[k := s.captures[k].sequence]
             && k !in s.tombstones
    requires n.pending == CountDown(m.pending, s.captures[k].sequence)
    requires n.tombstones == TombstoneUp(m.tombstones, s.captures[k].sequence, k)
    ensures PendingPart(t, n) && TombstonesPart(t, n)
  {
    assert Opened(5) && Opened(6);
    PendingRemove(s.captures, m.pending, k);
    TombstoneAdd(s.tombstones, m.tombstones, s.captures[k].sequence, k);
  }

  lemma AcknowledgeSeen(s: Store, m: Memory, k: Key, q: nat, t: Store, n: Memory)
    requires SeenPart(s, m) && k in s.captures
    requires t.captures == s.captures - {k} && t.tombstones == s.tombstones[k := q] && n.seen == m.seen
    ensures SeenPart(t, n)
  {
    assert Opened(3);
    assert t.captures.Keys == s.captures.Keys - {k} && t.tombstones.Keys == s.tombstones.Keys + {k};
    MoveKey(s.captures.Keys, s.tombstones.Keys, k);
  }

  lemma MoveKey(a: set<Key>, b: set<Key>, k: Key)
    requires k in a
    ensures (a - {k}) + (b + {k}) == a + b
  {
  }

  lemma AcknowledgeStep(s: Store, m: Memory, rules: Rules, k: Key)
    requires Consistent(s, m, rules) && k in m.indexes && m.indexes[k] < |m.forwarded| && k in s.captures
    requires s.captures[k].sequence in m.pending && m.pending[s.captures[k].sequence] > 0
    ensures var q, moved := s.captures[k].sequence, SwapRemove(m.forwarded, m.indexes[k]);
            && Enabled(s, Acknowledge(k), rules)
            && Consistent(Apply(s, Acknowledge(k)),
                          m.(tombstones := TombstoneUp(m.tombstones, q, k), pending := CountDown(m.pending, q),
                             forwarded := moved,
                             indexes := IndexAfter(m.indexes, k, moved, m.indexes[k], rules.key)), rules)
  {
    var q, moved := s.captures[k].sequence, SwapRemove(m.forwarded, m.indexes[k]);
    var t := Apply(s, Acknowledge(k));
    var n := m.(tombstones := TombstoneUp(m.tombstones, q, k), pending := CountDown(m.pending, q), forwarded := moved,
                indexes := IndexAfter(m.indexes, k, moved, m.indexes[k], rules.key));
    KeysFacts(s, m, rules);
    SoundStep(s, rules, Acknowledge(k));
    AcknowledgeMirrors(s, m, rules, k, t, n);
    AcknowledgeCounts(s, m, rules, k, t, n);
    AcknowledgeSeen(s, m, k, q, t, n);
    SameJobs(s, t, m, n, rules);
  }
}
