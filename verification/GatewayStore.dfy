/**
 The gateway's durable state (crates/meshmine-gateway/src/lib.rs): what each
 record holds, which atomic writes the gateway makes, and what every store
 reached by such writes satisfies. The key-value namespaces are maps of
 decoded records; their bytes are in module DurableRecords.
 */
module GatewayStore {
  import opened Wrappers
  import opened Bytes

  const MAX_ASSIGNMENTS: nat := 100_000
  const MAX_CAPTURES: nat := 1_000_000
  const MAX_JOB_TRANSACTIONS: nat := 100_000
  const U64_LIMIT: nat := 0x1_0000_0000_0000_0000

  /** A byte string stored as one value: an identifier, a name, a hash or a target. */
  datatype Text = Text(bytes: seq<Byte>)

  type Id = Text
  type Key = Text

  datatype Transactions = Transactions(hashes: seq<nat>)

  datatype Job = Job(
    id: Id, sequence: nat,
    previousBlock: nat, merkleRoot: nat, witnessRoot: nat, treeRoot: nat, reservedRoot: nat, maskHash: nat,
    version: nat, bits: nat, ntime: nat,
    prefix: nat, blindBand: nat, captureTarget: Text, advertisedTarget: Text, difficulty: nat,
    issuedMs: nat, assignmentEndMs: nat, submissionEndMs: nat, transactions: Transactions)

  datatype JobState = Active | Grace(creditCutoffMs: nat, submissionEndMs: nat) | Closed

  datatype Header = Header(
    nonce: nat, time: nat, previousBlock: nat, treeRoot: nat, maskHash: nat, extraNonce: Text,
    reservedRoot: nat, witnessRoot: nat, merkleRoot: nat, version: nat, bits: nat)

  datatype Capture = Capture(
    username: Text, jobId: Id, sequence: nat, header: Header, shareHash: Text,
    receivedMs: nat, creditEligible: bool, telemetry: nat)

  /** One map per namespace. */
  datatype Store = Store(
    format: bool, head: Option<nat>, next: Option<nat>,
    jobs: map<nat, Job>, states: map<nat, JobState>,
    retiring: map<nat, Id>, retired: map<Id, nat>,
    captures: map<Key, Capture>, tombstones: map<Key, nat>)

  const EMPTY: Store := Store(false, None, None, map[], map[], map[], map[], map[], map[])

  // ---- Well-formed records ----

  predicate ValidState(job: Job, state: JobState) {
    state.Grace? ==> job.issuedMs <= state.creditCutoffMs <= state.submissionEndMs <= job.submissionEndMs
  }

  /** The checks on single records that do not depend on the rest of the store. */
  datatype Rules = Rules(job: Job -> bool, capture: (Capture, Job) -> bool, key: Capture -> Key)

  predicate ValidCapture(c: Capture, job: Job, rules: Rules) {
    c.jobId == job.id && c.sequence == job.sequence && rules.capture(c, job)
  }

  // ---- What reopening checks ----

  predicate LiveId(jobs: map<nat, Job>, id: Id) { exists q :: q in jobs && jobs[q].id == id }

  predicate Pending(captures: map<Key, Capture>, q: nat) { exists k :: k in captures && captures[k].sequence == q }

  predicate Tombstoned(tombstones: map<Key, nat>, q: nat) { exists k :: k in tombstones && tombstones[k] == q }

  predicate JobOk(q: nat, job: Job, state: JobState, rules: Rules) {
    job.sequence == q && rules.job(job) && ValidState(job, state)
  }

  predicate JobsOk(jobs: map<nat, Job>, states: map<nat, JobState>, rules: Rules) {
    && jobs.Keys == states.Keys && |jobs| <= MAX_ASSIGNMENTS
    && (forall q :: q in jobs ==> JobOk(q, jobs[q], states[q], rules))
    && (forall p, q :: p in jobs && q in jobs && jobs[p].id == jobs[q].id ==> p == q)
  }

  /** Exactly the job the head names is active. */
  predicate HeadOk(head: Option<nat>, states: map<nat, JobState>) {
    && (head.Some? ==> head.value in states)
    && (forall q :: q in states ==> (states[q].Active? <==> head == Some(q)))
  }

  predicate RetiringRecordOk(
      q: nat, id: Id, jobs: map<nat, Job>, states: map<nat, JobState>, captures: map<Key, Capture>) {
    q in jobs && q in states && id == jobs[q].id && states[q].Closed? && !Pending(captures, q)
  }

  predicate RetiringOk(
      retiring: map<nat, Id>, jobs: map<nat, Job>, states: map<nat, JobState>, captures: map<Key, Capture>) {
    forall q :: q in retiring ==> RetiringRecordOk(q, retiring[q], jobs, states, captures)
  }

  predicate TombstonesOk(tombstones: map<Key, nat>, jobs: map<nat, Job>) {
    forall k :: k in tombstones ==> tombstones[k] in jobs
  }

  predicate CaptureOk(k: Key, c: Capture, jobs: map<nat, Job>, rules: Rules) {
    rules.key(c) == k && c.sequence in jobs && ValidCapture(c, jobs[c.sequence], rules)
  }

  predicate CapturesOk(captures: map<Key, Capture>, jobs: map<nat, Job>, rules: Rules) {
    forall k :: k in captures ==> CaptureOk(k, captures[k], jobs, rules)
  }

  predicate KeysOk(captures: map<Key, Capture>, tombstones: map<Key, nat>) {
    captures.Keys !! tombstones.Keys && |captures| + |tombstones| <= MAX_CAPTURES
  }

  predicate Recoverable(s: Store, rules: Rules) {
    && JobsOk(s.jobs, s.states, rules) && HeadOk(s.head, s.states)
       && RetiringOk(s.retiring, s.jobs, s.states, s.captures)
    && TombstonesOk(s.tombstones, s.jobs) && CapturesOk(s.captures, s.jobs, rules) && KeysOk(s.captures, s.tombstones)
    && (!s.format ==> s.head == None && s.jobs == map[])
  }

  function Next(next: Option<nat>): nat { if next.Some? then next.value else 1 }

  /** Sequence numbers only grow, and retired ids never come back. */
  predicate HistoryOk(jobs: map<nat, Job>, next: Option<nat>, retired: map<Id, nat>) {
    forall q :: q in jobs ==> q < Next(next) && jobs[q].id !in retired
  }

  predicate Sound(s: Store, rules: Rules) { Recoverable(s, rules) && HistoryOk(s.jobs, s.next, s.retired) }

  // ---- The atomic writes ----

  datatype Transition = Transition(creditCutoffMs: nat, submissionEndMs: nat)

  datatype Write =
    | WriteFormat
    | Issue(job: Job, transition: Option<Transition>)
    | Cancel(sequence: nat, creditCutoffMs: nat, submissionEndMs: nat)
    | Close(sequence: nat)
    | MarkRetiring(sequence: nat)
    | DropTombstones(sequence: nat, keys: set<Key>)
    | Retire(sequence: nat)
    | Accept(key: Key, capture: Capture)
    | Acknowledge(key: Key)

  predicate TransitionOk(s: Store, job: Job, transition: Option<Transition>) {
    match s.head
    case None => transition == None
    case Some(p) =>
      && transition.Some? && p in s.jobs
      && s.jobs[p].issuedMs <= transition.value.creditCutoffMs <= job.issuedMs
      && transition.value.creditCutoffMs <= transition.value.submissionEndMs <= s.jobs[p].submissionEndMs
  }

  predicate MayIssue(s: Store, job: Job, transition: Option<Transition>, rules: Rules) {
    && s.format && job.sequence == Next(s.next) && Next(s.next) + 1 < U64_LIMIT && rules.job(job)
    && !LiveId(s.jobs, job.id) && job.id !in s.retired && |s.jobs| < MAX_ASSIGNMENTS && TransitionOk(s, job, transition)
  }

  predicate MayCancel(s: Store, q: nat, cutoff: nat, end: nat) {
    s.format && s.head == Some(q) && q in s.jobs && ValidState(s.jobs[q], Grace(cutoff, end))
  }

  predicate MayClose(s: Store, q: nat) { s.format && q in s.states && !s.states[q].Closed? }

  predicate MayMarkRetiring(s: Store, q: nat) {
    s.format && q in s.jobs && q in s.states && s.states[q].Closed? && !Pending(s.captures, q) && q !in s.retiring
  }

  predicate MayDrop(s: Store, q: nat, keys: set<Key>) {
    s.format && q in s.retiring && forall k :: k in keys ==> k in s.tombstones && s.tombstones[k] == q
  }

  predicate MayRetire(s: Store, q: nat) {
    s.format && q in s.retiring && !Tombstoned(s.tombstones, q) && s.retiring[q] !in s.retired
  }

  predicate MayAccept(s: Store, key: Key, c: Capture, rules: Rules) {
    && s.format && key == rules.key(c) && key !in s.captures && key !in s.tombstones
    && c.sequence in s.jobs && c.sequence in s.states && !s.states[c.sequence].Closed?
    && ValidCapture(c, s.jobs[c.sequence], rules) && |s.captures| + |s.tombstones| < MAX_CAPTURES
  }

  predicate MayAcknowledge(s: Store, key: Key) { s.format && key in s.captures }

  /** When the gateway makes each write. */
  predicate Enabled(s: Store, w: Write, rules: Rules) {
    match w
    case WriteFormat => !s.format
    case Issue(job, transition) => MayIssue(s, job, transition, rules)
    case Cancel(q, cutoff, end) => MayCancel(s, q, cutoff, end)
    case Close(q) => MayClose(s, q)
    case MarkRetiring(q) => MayMarkRetiring(s, q)
    case DropTombstones(q, keys) => MayDrop(s, q, keys)
    case Retire(q) => MayRetire(s, q)
    case Accept(key, c) => MayAccept(s, key, c, rules)
    case Acknowledge(key) => MayAcknowledge(s, key)
  }

  function Issued(s: Store, job: Job, transition: Option<Transition>): Store {
    s.(next := Some(job.sequence + 1), jobs := s.jobs[job.sequence := job],
       states := Handed(s, transition)[job.sequence := Active], head := Some(job.sequence))
  }

  function Cancelled(s: Store, q: nat, cutoff: nat, end: nat): Store {
    s.(states := s.states[q := Grace(cutoff, end)], head := None)
  }

  function ClosedAt(s: Store, q: nat): Store {
    s.(states := s.states[q := Closed], head := if s.head == Some(q) then None else s.head)
  }

  function Marked(s: Store, q: nat): Store { if q in s.jobs then s.(retiring := s.retiring[q := s.jobs[q].id]) else s }

  function Retired(s: Store, q: nat): Store {
    if q in s.retiring
    then s.(retired := s.retired[s.retiring[q] := q], jobs := s.jobs - {q}, states := s.states - {q},
            retiring := s.retiring - {q})
    else s
  }

  function Accepted(s: Store, key: Key, c: Capture): Store { s.(captures := s.captures[key := c]) }

  function Acknowledged(s: Store, key: Key): Store {
    if key in s.captures
    then s.(tombstones := s.tombstones[key := s.captures[key].sequence], captures := s.captures - {key})
    else s
  }

  function Apply(s: Store, w: Write): Store {
    match w
    case WriteFormat => s.(format := true)
    case Issue(job, transition) => Issued(s, job, transition)
    case Cancel(q, cutoff, end) => Cancelled(s, q, cutoff, end)
    case Close(q) => ClosedAt(s, q)
    case MarkRetiring(q) => Marked(s, q)
    case DropTombstones(q, keys) => s.(tombstones := s.tombstones - keys)
    case Retire(q) => Retired(s, q)
    case Accept(key, c) => Accepted(s, key, c)
    case Acknowledge(key) => Acknowledged(s, key)
  }

  // ---- Every write keeps the store sound ----

  lemma JobsAdd(jobs: map<nat, Job>, states: map<nat, JobState>, q: nat, job: Job, state: JobState, rules: Rules)
    requires JobsOk(jobs, states, rules) && q !in jobs && |jobs| < MAX_ASSIGNMENTS
    requires JobOk(q, job, state, rules) && !LiveId(jobs, job.id)
    ensures JobsOk(jobs[q := job], states[q := state], rules)
  {
    var jobs', states' := jobs[q := job], states[q := state];
    assert jobs'.Keys == jobs.Keys + {q} && states'.Keys == states.Keys + {q};
    forall p | p in jobs' ensures JobOk(p, jobs'[p], states'[p], rules) {
      assert p in jobs ==> JobOk(p, jobs[p], states[p], rules);
    }
    forall p | p in jobs ensures jobs[p].id != job.id {
    }
  }

  lemma JobsState(jobs: map<nat, Job>, states: map<nat, JobState>, q: nat, state: JobState, rules: Rules)
    requires JobsOk(jobs, states, rules) && q in states && ValidState(jobs[q], state)
    ensures JobsOk(jobs, states[q := state], rules)
  {
    var states' := states[q := state];
    assert states'.Keys == states.Keys;
    forall p | p in jobs ensures JobOk(p, jobs[p], states'[p], rules) {
      assert JobOk(p, jobs[p], states[p], rules);
    }
  }

  lemma JobsRemove(jobs: map<nat, Job>, states: map<nat, JobState>, q: nat, rules: Rules)
    requires JobsOk(jobs, states, rules)
    ensures JobsOk(jobs - {q}, states - {q}, rules)
  {
    SmallerMap(jobs, jobs - {q});
    forall p | p in jobs && p != q ensures JobOk(p, jobs[p], states[p], rules) {
    }
  }

  /** Jobs under retirement are untouched by changes to other jobs. */
  lemma RetiringKept(
      retiring: map<nat, Id>, jobs: map<nat, Job>, states: map<nat, JobState>, captures: map<Key, Capture>,
      jobs': map<nat, Job>, states': map<nat, JobState>)
    requires RetiringOk(retiring, jobs, states, captures)
    requires forall q :: q in retiring ==> q in jobs' && q in states'
    requires forall q :: q in retiring && q in jobs ==> jobs'[q] == jobs[q]
    requires forall q :: q in retiring && q in states ==> states'[q] == states[q]
    ensures RetiringOk(retiring, jobs', states', captures)
  {
    forall q | q in retiring ensures RetiringRecordOk(q, retiring[q], jobs', states', captures) {
      assert RetiringRecordOk(q, retiring[q], jobs, states, captures);
    }
  }

  lemma RetiringIsClosed(
      retiring: map<nat, Id>, jobs: map<nat, Job>, states: map<nat, JobState>, captures: map<Key, Capture>)
    requires RetiringOk(retiring, jobs, states, captures)
    ensures forall q :: q in retiring ==> q in jobs && q in states && states[q].Closed?
  {
    forall q | q in retiring ensures q in jobs && q in states && states[q].Closed? {
      assert RetiringRecordOk(q, retiring[q], jobs, states, captures);
    }
  }

  lemma RetiringCaptures(retiring: map<nat, Id>, jobs: map<nat, Job>, states: map<nat, JobState>,
                         captures: map<Key, Capture>, captures': map<Key, Capture>)
    requires RetiringOk(retiring, jobs, states, captures)
    requires forall k :: k in captures' ==> captures'[k].sequence !in retiring
                                            || (k in captures && captures[k] == captures'[k])
    ensures RetiringOk(retiring, jobs, states, captures')
  {
    forall q | q in retiring ensures RetiringRecordOk(q, retiring[q], jobs, states, captures') {
      assert RetiringRecordOk(q, retiring[q], jobs, states, captures);
    }
  }

  lemma CapturesKept(captures: map<Key, Capture>, jobs: map<nat, Job>, jobs': map<nat, Job>, rules: Rules)
    requires CapturesOk(captures, jobs, rules)
    requires forall k :: k in captures && captures[k].sequence in jobs ==>
               captures[k].sequence in jobs' && jobs'[captures[k].sequence] == jobs[captures[k].sequence]
    ensures CapturesOk(captures, jobs', rules)
  {
    forall k | k in captures ensures CaptureOk(k, captures[k], jobs', rules) {
      assert CaptureOk(k, captures[k], jobs, rules);
    }
  }

  lemma CapturesAdd(captures: map<Key, Capture>, jobs: map<nat, Job>, key: Key, c: Capture, rules: Rules)
    requires CapturesOk(captures, jobs, rules) && CaptureOk(key, c, jobs, rules)
    ensures CapturesOk(captures[key := c], jobs, rules)
  {
    var captures' := captures[key := c];
    forall k | k in captures' ensures CaptureOk(k, captures'[k], jobs, rules) {
      assert k != key ==> CaptureOk(k, captures[k], jobs, rules);
    }
  }

  lemma CapturesRemove(captures: map<Key, Capture>, jobs: map<nat, Job>, key: Key, rules: Rules)
    requires CapturesOk(captures, jobs, rules)
    ensures CapturesOk(captures - {key}, jobs, rules)
  {
    forall k | k in captures - {key} ensures CaptureOk(k, captures[k], jobs, rules) {
    }
  }

  lemma SmallerMap<K, V>(m: map<K, V>, n: map<K, V>)
    requires n.Keys <= m.Keys
    ensures |n| <= |m|
  {
    var rest := m.Keys - n.Keys;
    assert m.Keys == n.Keys + rest;
  }

  lemma KeysMove(captures: map<Key, Capture>, tombstones: map<Key, nat>, key: Key, q: nat)
    requires KeysOk(captures, tombstones) && key in captures
    ensures KeysOk(captures - {key}, tombstones[key := q])
  {
    assert (captures - {key}).Keys == captures.Keys - {key};
    assert tombstones[key := q].Keys == tombstones.Keys + {key};
  }

  lemma KeysAdd(captures: map<Key, Capture>, tombstones: map<Key, nat>, key: Key, c: Capture)
    requires KeysOk(captures, tombstones) && key !in captures && key !in tombstones
             && |captures| + |tombstones| < MAX_CAPTURES
    ensures KeysOk(captures[key := c], tombstones)
  {
    assert captures[key := c].Keys == captures.Keys + {key};
  }

  /** The states once the old head has been given its grace period. */
  function Handed(s: Store, transition: Option<Transition>): map<nat, JobState> {
    if s.head.Some? && transition.Some?
    then s.states[s.head.value := Grace(transition.value.creditCutoffMs, transition.value.submissionEndMs)]
    else s.states
  }

  lemma HandedJobs(s: Store, job: Job, transition: Option<Transition>, rules: Rules)
    requires JobsOk(s.jobs, s.states, rules) && HeadOk(s.head, s.states) && TransitionOk(s, job, transition)
    ensures JobsOk(s.jobs, Handed(s, transition), rules)
    ensures forall q :: q in Handed(s, transition) ==> q in s.states && !Handed(s, transition)[q].Active?
    ensures forall q :: q in s.states && s.states[q].Closed? ==>
            q in Handed(s, transition) && Handed(s, transition)[q] == s.states[q]
  {
    if s.head.Some? {
      JobsState(s.jobs, s.states, s.head.value,
                Grace(transition.value.creditCutoffMs, transition.value.submissionEndMs), rules);
    }
  }

  lemma IssueJobs(s: Store, job: Job, transition: Option<Transition>, rules: Rules)
    requires Sound(s, rules) && MayIssue(s, job, transition, rules)
    ensures job.sequence !in s.jobs
    ensures JobsOk(s.jobs[job.sequence := job], Handed(s, transition)[job.sequence := Active], rules)
  {
    HandedJobs(s, job, transition, rules);
    JobsAdd(s.jobs, Handed(s, transition), job.sequence, job, Active, rules);
  }

  lemma IssueHead(s: Store, job: Job, transition: Option<Transition>, rules: Rules)
    requires JobsOk(s.jobs, s.states, rules) && HeadOk(s.head, s.states) && TransitionOk(s, job, transition)
    ensures HeadOk(Some(job.sequence), Handed(s, transition)[job.sequence := Active])
  {
    HandedJobs(s, job, transition, rules);
  }

  lemma HandedClosed(s: Store, transition: Option<Transition>, q: nat)
    requires HeadOk(s.head, s.states) && q in s.states && s.states[q].Closed?
    ensures q in Handed(s, transition) && Handed(s, transition)[q] == s.states[q]
  {
  }

  lemma IssueRetiring(s: Store, job: Job, transition: Option<Transition>)
    requires RetiringOk(s.retiring, s.jobs, s.states, s.captures) && HeadOk(s.head, s.states) && job.sequence !in s.jobs
    ensures RetiringOk(s.retiring, s.jobs[job.sequence := job], Handed(s, transition)[job.sequence := Active],
                       s.captures)
  {
    var jobs, states := s.jobs[job.sequence := job], Handed(s, transition)[job.sequence := Active];
    forall q | q in s.retiring ensures RetiringRecordOk(q, s.retiring[q], jobs, states, s.captures) {
      assert RetiringRecordOk(q, s.retiring[q], s.jobs, s.states, s.captures);
      HandedClosed(s, transition, q);
    }
  }

  lemma CapturesNewJob(captures: map<Key, Capture>, jobs: map<nat, Job>, q: nat, job: Job, rules: Rules)
    requires CapturesOk(captures, jobs, rules) && q !in jobs
    ensures CapturesOk(captures, jobs[q := job], rules)
  {
    CapturesKept(captures, jobs, jobs[q := job], rules);
  }

  lemma HistoryAdd(jobs: map<nat, Job>, next: Option<nat>, retired: map<Id, nat>, job: Job)
    requires HistoryOk(jobs, next, retired) && job.sequence == Next(next) && job.id !in retired
    ensures HistoryOk(jobs[job.sequence := job], Some(job.sequence + 1), retired)
  {
  }

  lemma TombstonesAdd(tombstones: map<Key, nat>, jobs: map<nat, Job>, q: nat, job: Job)
    requires TombstonesOk(tombstones, jobs)
    ensures TombstonesOk(tombstones, jobs[q := job])
  {
  }

  lemma IssueKeeps(s: Store, job: Job, transition: Option<Transition>, rules: Rules)
    requires Sound(s, rules) && MayIssue(s, job, transition, rules)
    ensures Sound(Issued(s, job, transition), rules)
  {
    IssueJobs(s, job, transition, rules);
    IssueHead(s, job, transition, rules);
    IssueRetiring(s, job, transition);
    CapturesNewJob(s.captures, s.jobs, job.sequence, job, rules);
    HistoryAdd(s.jobs, s.next, s.retired, job);
    TombstonesAdd(s.tombstones, s.jobs, job.sequence, job);
  }

  lemma HeadState(head: Option<nat>, states: map<nat, JobState>, q: nat, state: JobState, head': Option<nat>)
    requires HeadOk(head, states) && q in states && !state.Active? && head' == if head == Some(q) then None else head
    ensures HeadOk(head', states[q := state])
  {
  }

  /** A state change of a job that is not yet closed. */
  lemma StateKeeps(s: Store, q: nat, state: JobState, head: Option<nat>, rules: Rules)
    requires Sound(s, rules) && s.format && q in s.states && !s.states[q].Closed? && ValidState(s.jobs[q], state)
    requires !state.Active? && head == if s.head == Some(q) then None else s.head
    ensures Sound(s.(states := s.states[q := state], head := head), rules)
  {
    JobsState(s.jobs, s.states, q, state, rules);
    HeadState(s.head, s.states, q, state, head);
    StateRetiring(s, q, state);
  }

  lemma StateRetiring(s: Store, q: nat, state: JobState)
    requires RetiringOk(s.retiring, s.jobs, s.states, s.captures) && q in s.states && !s.states[q].Closed?
    ensures RetiringOk(s.retiring, s.jobs, s.states[q := state], s.captures)
  {
    RetiringIsClosed(s.retiring, s.jobs, s.states, s.captures);
    RetiringKept(s.retiring, s.jobs, s.states, s.captures, s.jobs, s.states[q := state]);
  }

  lemma CapturesWithoutJob(captures: map<Key, Capture>, jobs: map<nat, Job>, q: nat, rules: Rules)
    requires CapturesOk(captures, jobs, rules) && !Pending(captures, q)
    ensures CapturesOk(captures, jobs - {q}, rules)
  {
    CapturesKept(captures, jobs, jobs - {q}, rules);
  }

  lemma TombstonesWithoutJob(tombstones: map<Key, nat>, jobs: map<nat, Job>, q: nat)
    requires TombstonesOk(tombstones, jobs) && !Tombstoned(tombstones, q)
    ensures TombstonesOk(tombstones, jobs - {q})
  {
  }

  lemma HistoryRetire(
      jobs: map<nat, Job>, states: map<nat, JobState>, next: Option<nat>, retired: map<Id, nat>, q: nat, rules: Rules)
    requires HistoryOk(jobs, next, retired) && JobsOk(jobs, states, rules) && q in jobs
    ensures HistoryOk(jobs - {q}, next, retired[jobs[q].id := q])
  {
  }

  lemma RetireKeeps(s: Store, q: nat, rules: Rules)
    requires Sound(s, rules) && MayRetire(s, q)
    ensures Sound(Retired(s, q), rules)
  {
    assert RetiringRecordOk(q, s.retiring[q], s.jobs, s.states, s.captures);
    JobsRemove(s.jobs, s.states, q, rules);
    RetiringRemove(s.retiring, s.jobs, s.states, s.captures, q);
    CapturesWithoutJob(s.captures, s.jobs, q, rules);
    TombstonesWithoutJob(s.tombstones, s.jobs, q);
    HistoryRetire(s.jobs, s.states, s.next, s.retired, q, rules);
  }

  lemma RetiringRemove(
      retiring: map<nat, Id>, jobs: map<nat, Job>, states: map<nat, JobState>, captures: map<Key, Capture>, q: nat)
    requires RetiringOk(retiring, jobs, states, captures)
    ensures RetiringOk(retiring - {q}, jobs - {q}, states - {q}, captures)
  {
    forall p | p in retiring && p != q ensures RetiringRecordOk(p, retiring[p], jobs - {q}, states - {q}, captures) {
      assert RetiringRecordOk(p, retiring[p], jobs, states, captures);
    }
  }

  lemma AcceptKeeps(s: Store, key: Key, c: Capture, rules: Rules)
    requires Sound(s, rules) && MayAccept(s, key, c, rules)
    ensures Sound(Accepted(s, key, c), rules)
  {
    CapturesAdd(s.captures, s.jobs, key, c, rules);
    KeysAdd(s.captures, s.tombstones, key, c);
    RetiringIsClosed(s.retiring, s.jobs, s.states, s.captures);
    RetiringCaptures(s.retiring, s.jobs, s.states, s.captures, s.captures[key := c]);
  }

  lemma AcknowledgeKeeps(s: Store, key: Key, rules: Rules)
    requires Sound(s, rules) && MayAcknowledge(s, key)
    ensures Sound(Acknowledged(s, key), rules)
  {
    assert CaptureOk(key, s.captures[key], s.jobs, rules);
    CapturesRemove(s.captures, s.jobs, key, rules);
    KeysMove(s.captures, s.tombstones, key, s.captures[key].sequence);
    TombstoneKept(s.tombstones, s.jobs, key, s.captures[key].sequence);
    RetiringCaptures(s.retiring, s.jobs, s.states, s.captures, s.captures - {key});
  }

  lemma TombstoneKept(tombstones: map<Key, nat>, jobs: map<nat, Job>, key: Key, q: nat)
    requires TombstonesOk(tombstones, jobs) && q in jobs
    ensures TombstonesOk(tombstones[key := q], jobs)
  {
  }

  lemma MarkKeeps(s: Store, q: nat, rules: Rules)
    requires Sound(s, rules) && MayMarkRetiring(s, q)
    ensures Sound(Marked(s, q), rules)
  {
    var retiring := s.retiring[q := s.jobs[q].id];
    forall p | p in retiring ensures RetiringRecordOk(p, retiring[p], s.jobs, s.states, s.captures) {
      assert p != q ==> RetiringRecordOk(p, s.retiring[p], s.jobs, s.states, s.captures);
    }
  }

  /** The invariant of every run: whatever the gateway writes next, the store stays sound. */
  lemma WriteKeepsSound(s: Store, w: Write, rules: Rules)
    requires Sound(s, rules) && Enabled(s, w, rules)
    ensures Sound(Apply(s, w), rules)
  {
    match w {
      case WriteFormat =>
      case Issue(job, transition) => IssueKeeps(s, job, transition, rules);
      case Cancel(q, cutoff, end) => StateKeeps(s, q, Grace(cutoff, end), None, rules);
      case Close(q) => StateKeeps(s, q, Closed, if s.head == Some(q) then None else s.head, rules);
      case MarkRetiring(q) => MarkKeeps(s, q, rules);
      case DropTombstones(q, keys) => SmallerMap(s.tombstones, s.tombstones - keys);
      case Retire(q) => RetireKeeps(s, q, rules);
      case Accept(key, c) => AcceptKeeps(s, key, c, rules);
      case Acknowledge(key) => AcknowledgeKeeps(s, key, rules);
    }
  }
}
