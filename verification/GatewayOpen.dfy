/**
 Reopening the gateway (crates/meshmine-gateway/src/lib.rs,
 `open_with_target_policy`): every namespace is scanned, every record checked
 against the others, and all indexes rebuilt. Opening succeeds exactly on
 recoverable stores, and rebuilds the mirror of the store.
 */
module GatewayOpen {
  import opened Wrappers
  import opened Sorting
  import opened GatewayStore
  import opened GatewayMemory
  import opened GatewayRecords
  import opened GatewaySteps

  /** Decoded jobs hold 32-byte targets. */
  predicate Typed(s: Store) { forall q :: q in s.jobs ==> TargetsSized(s.jobs[q]) }

  /** Moving one element from those to do to those done. */
  lemma DoneNext<T>(all: set<T>, todo: set<T>, x: T)
    requires todo <= all && x in todo
    ensures all - (todo - {x}) == all - todo + {x} && x !in all - todo && todo - {x} <= all && |todo - {x}| < |todo|
  {
  }

  lemma AllDone<T>(all: set<T>)
    ensures all - {} == all && all - all == {}
  {
  }

  // ---- Jobs ----

  lemma BadJob(s: Store, rules: Rules, q: nat)
    requires q in s.jobs && (q !in s.states || !JobOk(q, s.jobs[q], s.states[q], rules))
    ensures JobsBad(s, rules)
  {
  }

  /** The part of the store already read. */
  function Part<V>(m: map<nat, V>, done: set<nat>): map<nat, V>
    requires done <= m.Keys
  {
    map q | q in done :: m[q]
  }

  ghost predicate ReadBody(s: Store, done: set<nat>, memory: map<Id, Entry>, rules: Rules)
    requires done <= s.jobs.Keys && done <= s.states.Keys
  {
    MirrorsJobs(Part(s.jobs, done), Part(s.states, done), memory)
      && JobsOk(Part(s.jobs, done), Part(s.states, done), rules)
  }

  ghost predicate Read(s: Store, done: set<nat>, memory: map<Id, Entry>, rules: Rules) {
    && done <= s.jobs.Keys && done <= s.states.Keys
    && forall i: int {:trigger Opened(i)} :: Opened(i) && i == 7 ==> ReadBody(s, done, memory, rules)
  }

  /** The jobs are sound and the memory mirrors them. */
  ghost predicate JobsGood(s: Store, memory: map<Id, Entry>, rules: Rules) {
    forall i: int {:trigger Opened(i)} :: Opened(i) && i == 8 ==>
      JobsOk(s.jobs, s.states, rules) && MirrorsJobs(s.jobs, s.states, memory)
  }

  ghost predicate JobsBad(s: Store, rules: Rules) {
    forall i: int {:trigger Opened(i)} :: Opened(i) && i == 9 ==> !JobsOk(s.jobs, s.states, rules)
  }

  lemma ReadNothing(s: Store, rules: Rules)
    ensures Read(s, {}, map[], rules)
  {
    assert Part(s.jobs, {}) == map[] && Part(s.states, {}) == map[];
  }

  lemma ReadSize(s: Store, done: set<nat>, q: nat)
    requires done <= s.jobs.Keys && q in s.jobs && q !in done && |s.jobs| <= MAX_ASSIGNMENTS
    ensures |Part(s.jobs, done)| < MAX_ASSIGNMENTS
  {
    var jobs := Part(s.jobs, done);
    SmallerMap(s.jobs, jobs[q := s.jobs[q]]);
    assert jobs[q := s.jobs[q]].Keys == jobs.Keys + {q};
  }

  lemma PartNext<V>(m: map<nat, V>, done: set<nat>, q: nat)
    requires done <= m.Keys && q in m && q !in done
    ensures Part(m, done + {q}) == Part(m, done)[q := m[q]]
  {
  }

  lemma ReadNext(s: Store, done: set<nat>, memory: map<Id, Entry>, rules: Rules, q: nat)
    requires Read(s, done, memory, rules) && q in s.jobs && q in s.states && q !in done && |s.jobs| <= MAX_ASSIGNMENTS
    requires JobOk(q, s.jobs[q], s.states[q], rules) && s.jobs[q].id !in memory
    ensures Read(s, done + {q}, memory[s.jobs[q].id := Entry(s.jobs[q], s.states[q])], rules)
  {
    ReadSize(s, done, q);
    OpenRead(s, done, memory, rules);
    ReadAdd(Part(s.jobs, done), Part(s.states, done), memory, q, s.jobs[q], s.states[q], rules);
    ReadOn(s, done, memory[s.jobs[q].id := Entry(s.jobs[q], s.states[q])], rules, q);
  }

  lemma ReadOn(s: Store, done: set<nat>, memory: map<Id, Entry>, rules: Rules, q: nat)
    requires done <= s.jobs.Keys && done <= s.states.Keys && q in s.jobs && q in s.states && q !in done
    requires JobsOk(Part(s.jobs, done)[q := s.jobs[q]], Part(s.states, done)[q := s.states[q]], rules)
    requires MirrorsJobs(Part(s.jobs, done)[q := s.jobs[q]], Part(s.states, done)[q := s.states[q]], memory)
    ensures Read(s, done + {q}, memory, rules)
  {
    PartNext(s.jobs, done, q);
    PartNext(s.states, done, q);
    SealRead(s, done + {q}, memory, rules);
  }

  lemma SealRead(s: Store, done: set<nat>, memory: map<Id, Entry>, rules: Rules)
    requires done <= s.jobs.Keys && done <= s.states.Keys && ReadBody(s, done, memory, rules)
    ensures Read(s, done, memory, rules)
  {
  }

  lemma OpenRead(s: Store, done: set<nat>, memory: map<Id, Entry>, rules: Rules)
    requires Read(s, done, memory, rules)
    ensures ReadBody(s, done, memory, rules)
  {
    assert Opened(7);
  }

  lemma ReadAdd(
      jobs: map<nat, Job>, states: map<nat, JobState>, memory: map<Id, Entry>, q: nat, job: Job, state: JobState,
      rules: Rules)
    requires JobsOk(jobs, states, rules) && MirrorsJobs(jobs, states, memory) && q !in jobs && |jobs| < MAX_ASSIGNMENTS
    requires JobOk(q, job, state, rules) && job.id !in memory
    ensures JobsOk(jobs[q := job], states[q := state], rules)
    ensures MirrorsJobs(jobs[q := job], states[q := state], memory[job.id := Entry(job, state)])
  {
    LiveIsNamed(jobs, states, memory, job.id);
    JobsAdd(jobs, states, q, job, state, rules);
    MirrorAdd(jobs, states, memory, q, job, state);
  }

  lemma TwiceNamed(s: Store, done: set<nat>, memory: map<Id, Entry>, rules: Rules, q: nat)
    requires Read(s, done, memory, rules) && q in s.jobs && q !in done && s.jobs[q].id in memory
    ensures JobsBad(s, rules)
  {
    assert Opened(7);
    var p := memory[s.jobs[q].id].job.sequence;
    assert NamedBy(Part(s.jobs, done), memory, s.jobs[q].id);
    assert s.jobs[p].id == s.jobs[q].id && p != q;
  }

  lemma ReadAll(s: Store, memory: map<Id, Entry>, rules: Rules)
    requires Read(s, s.jobs.Keys, memory, rules) && s.jobs.Keys == s.states.Keys
    ensures JobsGood(s, memory, rules)
  {
    assert Opened(7);
    assert Part(s.jobs, s.jobs.Keys) == s.jobs && Part(s.states, s.jobs.Keys) == s.states;
  }

  lemma TooMany(s: Store, rules: Rules)
    requires |s.states| > MAX_ASSIGNMENTS || |s.jobs| > MAX_ASSIGNMENTS || s.jobs.Keys != s.states.Keys
    ensures JobsBad(s, rules)
  {
    assert s.jobs.Keys == s.states.Keys ==> |s.jobs| == |s.states|;
  }

  method RecoverJobs(s: Store, enforce: bool, shareHash: ShareHash, ghost rules: Rules)
    returns (r: Result<map<Id, Entry>>)
    requires Typed(s) && Governs(rules, enforce, shareHash)
    ensures r.Ok? ==> JobsGood(s, r.value, rules)
    ensures r.Err? ==> JobsBad(s, rules)
  {
    if |s.states| > MAX_ASSIGNMENTS || |s.jobs| > MAX_ASSIGNMENTS {
      TooMany(s, rules);
      return Err(InvalidDurableState);
    }
    var memory: map<Id, Entry> := map[];
    var todo := s.jobs.Keys;
    ReadNothing(s, rules);
    AllDone(s.jobs.Keys);
    while todo != {}
      invariant todo <= s.jobs.Keys && Read(s, s.jobs.Keys - todo, memory, rules)
      decreases |todo|
    {
      var q :| q in todo;
      DoneNext(s.jobs.Keys, todo, q);
      var next := RecoverJob(s, q, enforce, shareHash, rules);
      if next.Err? {
        return Err(InvalidDurableState);
      }
      if next.value.id in memory {
        TwiceNamed(s, s.jobs.Keys - todo, memory, rules, q);
        return Err(InvalidDurableState);
      }
      ReadNext(s, s.jobs.Keys - todo, memory, rules, q);
      memory := memory[next.value.id := Entry(next.value, s.states[q])];
      todo := todo - {q};
    }
    if s.states.Keys != s.jobs.Keys {
      TooMany(s, rules);
      return Err(InvalidDurableState);
    }
    ReadAll(s, memory, rules);
    r := Ok(memory);
  }

  /** One assignment record and its state record. */
  method RecoverJob(s: Store, q: nat, enforce: bool, shareHash: ShareHash, ghost rules: Rules) returns (r: Result<Job>)
    requires Typed(s) && Governs(rules, enforce, shareHash) && q in s.jobs
    ensures r.Ok? ==> r.value == s.jobs[q] && q in s.states && JobOk(q, s.jobs[q], s.states[q], rules)
    ensures r.Err? ==> JobsBad(s, rules)
  {
    var job := s.jobs[q];
    var checked := ValidateJob(job, enforce);
    assert rules.job(job) <==> ValidJob(job, enforce);
    if checked.Err? || q !in s.states || !ValidState(job, s.states[q]) || q != job.sequence {
      BadJob(s, rules, q);
      return Err(InvalidDurableState);
    }
    r := Ok(job);
  }

  // ---- The current job ----

  method RecoverCurrent(s: Store, memory: map<Id, Entry>, ghost rules: Rules) returns (r: Result<Option<Id>>)
    requires JobsGood(s, memory, rules)
    ensures r.Ok? <==> HeadOk(s.head, s.states)
    ensures r.Ok? ==> r.value == CurrentOf(s.jobs, s.head)
  {
    var active := set q | q in s.states && s.states[q].Active?;
    HeadIsActive(s, active);
    JobsAreStates(s, memory, rules);
    if |active| > 1 {
      return Err(InvalidDurableState);
    }
    if s.head.None? && active == {} {
      ActiveIsHead(s, active);
      return Ok(None);
    }
    if s.head.Some? && active == {s.head.value} {
      ActiveIsHead(s, active);
      return Ok(Some(s.jobs[s.head.value].id));
    }
    r := Err(InvalidDurableState);
  }

  lemma JobsAreStates(s: Store, memory: map<Id, Entry>, rules: Rules)
    requires JobsGood(s, memory, rules)
    ensures s.jobs.Keys == s.states.Keys
  {
    assert Opened(8);
  }

  lemma ActiveIsHead(s: Store, active: set<nat>)
    requires active == (set q | q in s.states && s.states[q].Active?) && active == if s.head.Some? then {s.head.value}
             else {}
    ensures HeadOk(s.head, s.states)
  {
    forall q | q in s.states ensures s.states[q].Active? <==> s.head == Some(q) {
      assert s.states[q].Active? <==> q in active;
    }
    assert s.head.Some? ==> s.head.value in active;
  }

  lemma HeadIsActive(s: Store, active: set<nat>)
    requires active == set q | q in s.states && s.states[q].Active?
    ensures HeadOk(s.head, s.states) ==> active == (if s.head.Some? then {s.head.value} else {}) && |active| <= 1
  {
  }

  // ---- Retirement records ----

  predicate RetiringNamed(s: Store, q: nat)
    requires q in s.retiring
  {
    q in s.jobs && q in s.states && s.retiring[q] == s.jobs[q].id && s.states[q].Closed?
  }

  method RecoverRetiring(s: Store, memory: map<Id, Entry>, ghost rules: Rules) returns (r: Result<set<nat>>)
    requires JobsGood(s, memory, rules)
    ensures r.Ok? <==> forall q :: q in s.retiring ==> RetiringNamed(s, q)
    ensures r.Ok? ==> r.value == s.retiring.Keys
  {
    var todo, retiring := s.retiring.Keys, {};
    while todo != {}
      invariant todo !! retiring && todo + retiring == s.retiring.Keys
      invariant forall q :: q in retiring ==> RetiringNamed(s, q)
      decreases |todo|
    {
      var q :| q in todo;
      var id := s.retiring[q];
      NamedRetiring(s, memory, rules, q);
      if id !in memory || memory[id].job.sequence != q || !memory[id].state.Closed? {
        return Err(InvalidDurableState);
      }
      todo, retiring := todo - {q}, retiring + {q};
    }
    r := Ok(retiring);
  }

  lemma NamedRetiring(s: Store, memory: map<Id, Entry>, rules: Rules, q: nat)
    requires JobsGood(s, memory, rules) && q in s.retiring
    ensures var id := s.retiring[q];
            RetiringNamed(s, q) <==> id in memory && memory[id].job.sequence == q && memory[id].state.Closed?
  {
    assert Opened(8);
    var id := s.retiring[q];
    if id in memory {
      NamedEntry(s.jobs, s.states, memory, id);
    }
    if q in s.jobs && s.jobs[q].id == id {
      assert EntryFor(s.jobs, s.states, memory, q);
      assert JobOk(q, s.jobs[q], s.states[q], rules);
    }
  }

  // ---- Tombstones ----

  function KeyPart<V>(m: map<Key, V>, done: set<Key>): map<Key, V>
    requires done <= m.Keys
  {
    map k | k in done :: m[k]
  }

  lemma KeyPartNext<V>(m: map<Key, V>, done: set<Key>, k: Key)
    requires done <= m.Keys && k in m && k !in done
    ensures KeyPart(m, done + {k}) == KeyPart(m, done)[k := m[k]]
  {
  }

  lemma KeyPartAll<V>(m: map<Key, V>)
    ensures KeyPart(m, m.Keys) == m
  {
  }

  ghost predicate TombstonesRead(s: Store, done: set<Key>, memory: map<nat, set<Key>>) {
    && done <= s.tombstones.Keys
    && forall i: int {:trigger Opened(i)} :: Opened(i) && i == 10 ==>
       MirrorsTombstones(KeyPart(s.tombstones, done), memory)
  }

  lemma TombstonesReadNothing(s: Store)
    ensures TombstonesRead(s, {}, map[])
  {
    assert KeyPart(s.tombstones, {}) == map[];
    forall q: nat ensures TombstonesAt(map[], map[], q) {
      assert TombstonesFor(map[], q) == {};
    }
  }

  lemma TombstonesReadNext(s: Store, done: set<Key>, memory: map<nat, set<Key>>, k: Key)
    requires TombstonesRead(s, done, memory) && k in s.tombstones && k !in done
    ensures TombstonesRead(s, done + {k}, TombstoneUp(memory, s.tombstones[k], k))
  {
    assert Opened(10);
    KeyPartNext(s.tombstones, done, k);
    TombstoneAdd(KeyPart(s.tombstones, done), memory, s.tombstones[k], k);
  }

  lemma TombstonesReadAll(s: Store, memory: map<nat, set<Key>>)
    requires TombstonesRead(s, s.tombstones.Keys, memory)
    ensures MirrorsTombstones(s.tombstones, memory)
  {
    assert Opened(10);
    KeyPartAll(s.tombstones);
  }

  method RecoverTombstones(s: Store) returns (r: Result<map<nat, set<Key>>>)
    ensures r.Ok? <==> TombstonesOk(s.tombstones, s.jobs) && |s.tombstones| <= MAX_CAPTURES
    ensures r.Ok? ==> TombstonesRead(s, s.tombstones.Keys, r.value)
  {
    if |s.tombstones| > MAX_CAPTURES {
      return Err(InvalidDurableState);
    }
    var memory: map<nat, set<Key>> := map[];
    var todo := s.tombstones.Keys;
    TombstonesReadNothing(s);
    AllDone(s.tombstones.Keys);
    while todo != {}
      invariant todo <= s.tombstones.Keys
      invariant forall k :: k in s.tombstones && k !in todo ==> s.tombstones[k] in s.jobs
      invariant TombstonesRead(s, s.tombstones.Keys - todo, memory)
      decreases |todo|
    {
      var k :| k in todo;
      DoneNext(s.tombstones.Keys, todo, k);
      var q := s.tombstones[k];
      if q !in s.jobs {
        return Err(InvalidDurableState);
      }
      TombstonesReadNext(s, s.tombstones.Keys - todo, memory, k);
      memory := TombstoneUp(memory, q, k);
      todo := todo - {k};
    }
    r := Ok(memory);
  }

  // ---- Captures ----

  /** The queue, in any order, holds exactly these captures. */
  ghost predicate QueueHolds(captures: map<Key, Capture>, forwarded: seq<Capture>, key: Capture -> Key) {
    && NoDuplicates(forwarded)
    && (forall i :: 0 <= i < |forwarded| ==>
        key(forwarded[i]) in captures && captures[key(forwarded[i])] == forwarded[i])
    && (forall k :: k in captures ==> key(captures[k]) == k && captures[k] in forwarded)
  }

  lemma QueueHoldsNext(captures: map<Key, Capture>, forwarded: seq<Capture>, key: Capture -> Key, c: Capture)
    requires QueueHolds(captures, forwarded, key) && key(c) !in captures
    ensures QueueHolds(captures[key(c) := c], forwarded + [c], key)
  {
    assert c !in forwarded;
    assert (forwarded + [c])[|forwarded|] == c;
  }

  ghost predicate CapturesBody(s: Store, done: set<Key>, forwarded: seq<Capture>, pending: map<nat, nat>, rules: Rules)
    requires done <= s.captures.Keys
  {
    QueueHolds(KeyPart(s.captures, done), forwarded, rules.key) && MirrorsPending(KeyPart(s.captures, done), pending)
  }

  ghost predicate CapturesRead(
      s: Store, done: set<Key>, forwarded: seq<Capture>, pending: map<nat, nat>, rules: Rules) {
    && done <= s.captures.Keys
    && forall i: int {:trigger Opened(i)} :: Opened(i) && i == 11 ==> CapturesBody(s, done, forwarded, pending, rules)
  }

  lemma CapturesReadNothing(s: Store, rules: Rules)
    ensures CapturesRead(s, {}, [], map[], rules)
  {
    assert KeyPart(s.captures, {}) == map[];
    forall q: nat ensures PendingAt(map[], map[], q) {
      assert KeysFor(map[], q) == {};
    }
  }

  lemma CapturesReadNext(
      s: Store, done: set<Key>, forwarded: seq<Capture>, pending: map<nat, nat>, rules: Rules, k: Key)
    requires CapturesRead(s, done, forwarded, pending, rules) && k in s.captures && k !in done
             && rules.key(s.captures[k]) == k
    ensures CapturesRead(s, done + {k}, forwarded + [s.captures[k]], CountUp(pending, s.captures[k].sequence), rules)
  {
    assert Opened(11);
    KeyPartNext(s.captures, done, k);
    QueueHoldsNext(KeyPart(s.captures, done), forwarded, rules.key, s.captures[k]);
    PendingAdd(KeyPart(s.captures, done), pending, k, s.captures[k]);
  }

  lemma CapturesReadAll(s: Store, forwarded: seq<Capture>, pending: map<nat, nat>, rules: Rules)
    requires CapturesRead(s, s.captures.Keys, forwarded, pending, rules)
    ensures QueueHolds(s.captures, forwarded, rules.key) && MirrorsPending(s.captures, pending)
  {
    assert Opened(11);
    KeyPartAll(s.captures);
  }

  ghost predicate CapturesBad(s: Store, rules: Rules) {
    forall i: int {:trigger Opened(i)} :: Opened(i) && i == 12 ==>
      !(CapturesOk(s.captures, s.jobs, rules) && KeysOk(s.captures, s.tombstones))
  }

  /** One capture record. */
  method RecoverCapture(
      s: Store, k: Key, memory: map<Id, Entry>, enforce: bool, shareHash: ShareHash, ghost rules: Rules)
    returns (ok: bool)
    requires Governs(rules, enforce, shareHash) && JobsGood(s, memory, rules) && k in s.captures
    ensures ok <==> CaptureOk(k, s.captures[k], s.jobs, rules)
  {
    var c := s.captures[k];
    assert rules.key(c) == WorkKey(c);
    CaptureByName(s, memory, rules, k);
    if c.jobId !in memory || memory[c.jobId].job.sequence != c.sequence {
      return false;
    }
    assert rules.capture(c, memory[c.jobId].job) <==> CaptureMatches(c, memory[c.jobId].job, shareHash);
    ok := CaptureMatches(c, memory[c.jobId].job, shareHash) && WorkKey(c) == k;
  }

  lemma CaptureByName(s: Store, memory: map<Id, Entry>, rules: Rules, k: Key)
    requires JobsGood(s, memory, rules) && k in s.captures
    ensures var c := s.captures[k];
            CaptureOk(k, c, s.jobs, rules) <==>
              && c.jobId in memory && memory[c.jobId].job.sequence == c.sequence
                 && rules.capture(c, memory[c.jobId].job)
              && rules.key(c) == k
  {
    assert Opened(8);
    var c := s.captures[k];
    if c.jobId in memory {
      NamedEntry(s.jobs, s.states, memory, c.jobId);
    }
    if c.sequence in s.jobs && s.jobs[c.sequence].id == c.jobId {
      assert EntryFor(s.jobs, s.states, memory, c.sequence);
      assert JobOk(c.sequence, s.jobs[c.sequence], s.states[c.sequence], rules);
    }
  }

  predicate Accounted(s: Store, k: Key, rules: Rules)
    requires k in s.captures
  {
    CaptureOk(k, s.captures[k], s.jobs, rules) && k !in s.tombstones
  }

  /** The captures no longer to do are sound, and with the tombstones they make up the work keys seen. */
  ghost predicate Checked(s: Store, todo: set<Key>, seen: set<Key>, rules: Rules) {
    && (forall k :: k in s.captures && k !in todo ==> Accounted(s, k, rules))
    && seen == s.tombstones.Keys + (s.captures.Keys - todo)
       && |s.tombstones| + |s.captures| - |todo| == |seen| <= MAX_CAPTURES
  }

  ghost predicate Seen(s: Store, todo: set<Key>, seen: set<Key>, rules: Rules) {
    todo <= s.captures.Keys && forall i: int {:trigger Opened(i)} :: Opened(i) && i == 13 ==>
      Checked(s, todo, seen, rules)
  }

  lemma SeenNothing(s: Store, rules: Rules)
    requires |s.tombstones| <= MAX_CAPTURES
    ensures Seen(s, s.captures.Keys, s.tombstones.Keys, rules)
  {
    AllDone(s.captures.Keys);
    assert s.tombstones.Keys + {} == s.tombstones.Keys;
  }

  lemma SeenNext(s: Store, todo: set<Key>, seen: set<Key>, rules: Rules, k: Key)
    requires Seen(s, todo, seen, rules) && k in todo && k !in seen && |seen| < MAX_CAPTURES
    requires CaptureOk(k, s.captures[k], s.jobs, rules)
    ensures Seen(s, todo - {k}, seen + {k}, rules)
  {
    OpenSeen(s, todo, seen, rules);
    SeenSize(s.tombstones.Keys, s.captures.Keys, todo, seen, k);
    assert Accounted(s, k, rules);
    SealSeen(s, todo - {k}, seen + {k}, rules);
  }

  lemma SealSeen(s: Store, todo: set<Key>, seen: set<Key>, rules: Rules)
    requires todo <= s.captures.Keys && Checked(s, todo, seen, rules)
    ensures Seen(s, todo, seen, rules)
  {
  }

  lemma OpenSeen(s: Store, todo: set<Key>, seen: set<Key>, rules: Rules)
    requires Seen(s, todo, seen, rules)
    ensures Checked(s, todo, seen, rules)
  {
    assert Opened(13);
  }

  lemma SeenSize<T>(before: set<T>, all: set<T>, todo: set<T>, seen: set<T>, k: T)
    requires todo <= all && k in todo && k !in seen && seen == before + (all - todo)
    ensures seen + {k} == before + (all - (todo - {k})) && |seen + {k}| == |seen| + 1 && |todo - {k}| == |todo| - 1
  {
  }

  lemma SeenAll(s: Store, seen: set<Key>, rules: Rules)
    requires Seen(s, {}, seen, rules)
    ensures CapturesOk(s.captures, s.jobs, rules) && KeysOk(s.captures, s.tombstones)
  {
    assert Opened(13);
    forall k | k in s.captures ensures CaptureOk(k, s.captures[k], s.jobs, rules) && k !in s.tombstones {
      assert Accounted(s, k, rules);
    }
  }

  lemma SeenFull(s: Store, todo: set<Key>, seen: set<Key>, rules: Rules, k: Key)
    requires Seen(s, todo, seen, rules) && k in todo && |seen| >= MAX_CAPTURES
    ensures CapturesBad(s, rules)
  {
    assert Opened(13);
    DoneNext(s.captures.Keys, todo, k);
  }

  lemma SeenTwice(s: Store, todo: set<Key>, seen: set<Key>, rules: Rules, k: Key)
    requires Seen(s, todo, seen, rules) && k in todo
    requires k in seen || !CaptureOk(k, s.captures[k], s.jobs, rules)
    ensures CapturesBad(s, rules)
  {
    assert Opened(13);
  }

  method RecoverCaptures(s: Store, memory: map<Id, Entry>, enforce: bool, shareHash: ShareHash, ghost rules: Rules)
    returns (r: Result<(seq<Capture>, map<nat, nat>)>)
    requires Governs(rules, enforce, shareHash) && JobsGood(s, memory, rules) && |s.tombstones| <= MAX_CAPTURES
    ensures r.Ok? ==> CapturesRead(s, s.captures.Keys, r.value.0, r.value.1, rules) && exists seen ::
            Seen(s, {}, seen, rules)
    ensures r.Err? ==> CapturesBad(s, rules)
  {
    if |s.captures| > MAX_CAPTURES {
      return Err(InvalidDurableState);
    }
    var forwarded: seq<Capture>, pending: map<nat, nat> := [], map[];
    var todo, seen := s.captures.Keys, s.tombstones.Keys;
    CapturesReadNothing(s, rules);
    SeenNothing(s, rules);
    AllDone(s.captures.Keys);
    while todo != {}
      invariant CapturesRead(s, s.captures.Keys - todo, forwarded, pending, rules) && Seen(s, todo, seen, rules)
      decreases |todo|
    {
      var k :| k in todo;
      if |seen| >= MAX_CAPTURES {
        SeenFull(s, todo, seen, rules, k);
        return Err(InvalidDurableState);
      }
      var ok := RecoverCapture(s, k, memory, enforce, shareHash, rules);
      if !ok || k in seen {
        SeenTwice(s, todo, seen, rules, k);
        return Err(InvalidDurableState);
      }
      DoneNext(s.captures.Keys, todo, k);
      CapturesReadNext(s, s.captures.Keys - todo, forwarded, pending, rules, k);
      SeenNext(s, todo, seen, rules, k);
      forwarded, pending := forwarded + [s.captures[k]], CountUp(pending, s.captures[k].sequence);
      todo, seen := todo - {k}, seen + {k};
    }
    r := Ok((forwarded, pending));
  }

  // ---- The queue and its index ----

  /** The place of each capture in the queue. */
  method IndexQueue(s: Store, forwarded: seq<Capture>, ghost rules: Rules, enforce: bool, shareHash: ShareHash)
    returns (indexes: map<Key, nat>)
    requires Governs(rules, enforce, shareHash) && QueueHolds(s.captures, forwarded, rules.key)
    ensures MirrorsQueue(s.captures, forwarded, indexes, rules.key)
  {
    indexes := map[];
    for i := 0 to |forwarded|
      invariant Indexed(forwarded, i, indexes, rules.key)
    {
      assert rules.key(forwarded[i]) == WorkKey(forwarded[i]);
      indexes := indexes[WorkKey(forwarded[i]) := i];
      IndexedNext(s.captures, forwarded, i, rules.key);
    }
    IndexedAll(s.captures, forwarded, indexes, rules.key);
  }

  /** The index of the first part of the queue. */
  predicate Indexed(forwarded: seq<Capture>, n: nat, indexes: map<Key, nat>, key: Capture -> Key)
    requires n <= |forwarded|
  {
    && (forall i :: 0 <= i < n ==> key(forwarded[i]) in indexes && indexes[key(forwarded[i])] == i)
    && (forall k :: k in indexes ==> indexes[k] < n && key(forwarded[indexes[k]]) == k)
  }

  lemma IndexedNext(captures: map<Key, Capture>, forwarded: seq<Capture>, n: nat, key: Capture -> Key)
    requires QueueHolds(captures, forwarded, key) && n < |forwarded|
    ensures forall i :: 0 <= i < n ==> key(forwarded[i]) != key(forwarded[n])
  {
  }

  lemma IndexedAll(captures: map<Key, Capture>, forwarded: seq<Capture>, indexes: map<Key, nat>, key: Capture -> Key)
    requires QueueHolds(captures, forwarded, key) && Indexed(forwarded, |forwarded|, indexes, key)
    ensures MirrorsQueue(captures, forwarded, indexes, key)
  {
    forall k | k in captures ensures key(captures[k]) == k && IndexedAt(captures, forwarded, indexes, k) {
      var i :| 0 <= i < |forwarded| && forwarded[i] == captures[k];
    }
  }

  lemma QueueSorted(captures: map<Key, Capture>, forwarded: seq<Capture>, queue: seq<Capture>, key: Capture -> Key)
    requires QueueHolds(captures, forwarded, key) && multiset(queue) == multiset(forwarded)
    ensures QueueHolds(captures, queue, key)
  {
    forall x ensures x in queue <==> x in forwarded {
      assert x in multiset(queue) <==> x in multiset(forwarded);
    }
    SameDuplicates(forwarded, queue);
    forall i | 0 <= i < |queue| ensures key(queue[i]) in captures && captures[key(queue[i])] == queue[i] {
      assert queue[i] in forwarded;
      var j :| 0 <= j < |forwarded| && forwarded[j] == queue[i];
    }
  }

  // ---- Opening ----

  ghost predicate Broken(s: Store, rules: Rules) {
    forall i: int {:trigger Opened(i)} :: Opened(i) && i == 14 ==> !Recoverable(s, rules)
  }

  lemma BrokenRecords(s: Store, rules: Rules)
    requires !Named(s) || !TombstonesOk(s.tombstones, s.jobs) || |s.tombstones| > MAX_CAPTURES
    ensures Broken(s, rules)
  {
    if Recoverable(s, rules) {
      RecoverableRetiring(s, rules);
    }
  }

  lemma BrokenCaptures(s: Store, rules: Rules)
    requires CapturesBad(s, rules) || !RetiringOk(s.retiring, s.jobs, s.states, s.captures)
    ensures Broken(s, rules)
  {
    assert Opened(12);
  }

  /** What is rebuilt before the captures are read. */
  ghost predicate IndexesGood(s: Store, m: Memory, rules: Rules) {
    && JobsGood(s, m.jobs, rules) && |s.tombstones| <= MAX_CAPTURES && m.retiring == s.retiring.Keys
    && forall i: int {:trigger Opened(i)} :: Opened(i) && i == 15 ==>
      && HeadOk(s.head, s.states) && m.current == CurrentOf(s.jobs, s.head)
         && (!s.format ==> s.head.None? && s.jobs == map[])
      && TombstonesOk(s.tombstones, s.jobs) && MirrorsTombstones(s.tombstones, m.tombstones)
      && Named(s)
  }

  predicate Named(s: Store) { forall q :: q in s.retiring ==> RetiringNamed(s, q) }

  lemma NoJobs(s: Store, memory: map<Id, Entry>, rules: Rules)
    requires JobsGood(s, memory, rules)
    ensures memory == map[] <==> s.jobs == map[]
  {
    assert Opened(8);
    assert memory == map[] <==> |memory| == 0;
    assert s.jobs == map[] <==> |s.jobs| == 0;
  }

  lemma RecoverableRetiring(s: Store, rules: Rules)
    ensures Recoverable(s, rules) ==> Named(s)
    ensures Recoverable(s, rules) ==> TombstonesOk(s.tombstones, s.jobs) && |s.tombstones| <= MAX_CAPTURES
  {
    if Recoverable(s, rules) {
      forall q | q in s.retiring ensures RetiringNamed(s, q) {
        assert RetiringRecordOk(q, s.retiring[q], s.jobs, s.states, s.captures);
      }
    }
  }

  lemma RetiringIdle(s: Store, m: Memory, forwarded: seq<Capture>, pending: map<nat, nat>, rules: Rules)
    requires CapturesRead(s, s.captures.Keys, forwarded, pending, rules) && IndexesGood(s, m, rules)
    ensures RetiringOk(s.retiring, s.jobs, s.states, s.captures) <==> s.retiring.Keys !! pending.Keys
  {
    assert Opened(15);
    CapturesReadAll(s, forwarded, pending, rules);
    forall q | q in s.retiring
      ensures RetiringRecordOk(q, s.retiring[q], s.jobs, s.states, s.captures) <==> q !in pending
    {
      assert RetiringNamed(s, q);
      PendingMeans(s.captures, pending, q);
    }
  }

  lemma RetiringBusy(s: Store, m: Memory, forwarded: seq<Capture>, pending: map<nat, nat>, rules: Rules)
    requires CapturesRead(s, s.captures.Keys, forwarded, pending, rules) && IndexesGood(s, m, rules)
             && m.retiring * pending.Keys != {}
    ensures Broken(s, rules)
  {
    RetiringIdle(s, m, forwarded, pending, rules);
    BrokenCaptures(s, rules);
  }

  method RebuildQueue(
      s: Store, forwarded: seq<Capture>, ghost pending: map<nat, nat>, enforce: bool, shareHash: ShareHash,
      order: Capture -> nat, ghost rules: Rules)
    returns (queue: seq<Capture>, indexes: map<Key, nat>)
    requires Governs(rules, enforce, shareHash) && CapturesRead(s, s.captures.Keys, forwarded, pending, rules)
    ensures MirrorsQueue(s.captures, queue, indexes, rules.key) && Sorted(queue, order)
  {
    CapturesReadAll(s, forwarded, pending, rules);
    queue := SortBy(forwarded, order);
    QueueSorted(s.captures, forwarded, queue, rules.key);
    indexes := IndexQueue(s, queue, rules, enforce, shareHash);
  }

  /** What is checked before a new store is marked. */
  ghost predicate Markable(s: Store, rules: Rules) {
    && JobsOk(s.jobs, s.states, rules) && HeadOk(s.head, s.states)
    && (!s.format ==> s.head == None && s.jobs == map[])
  }

  /** The mark changes nothing else: the store reopens as before, and marking again changes nothing. */
  lemma MarkHarmless(s: Store, rules: Rules)
    requires Markable(s, rules)
    ensures var t := s.(format := true);
            Markable(t, rules) && (Recoverable(t, rules) <==> Recoverable(s, rules))
              && (Sound(t, rules) <==> Sound(s, rules))
  {
  }

  ghost predicate HeadsGood(s: Store, jobs: map<Id, Entry>, current: Option<Id>, rules: Rules) {
    && JobsGood(s, jobs, rules)
    && forall i: int {:trigger Opened(i)} :: Opened(i) && i == 17 ==>
      HeadOk(s.head, s.states) && current == CurrentOf(s.jobs, s.head)
        && (!s.format ==> s.head.None? && s.jobs == map[])
  }

  ghost predicate Unmarkable(s: Store, rules: Rules) {
    forall i: int {:trigger Opened(i)} :: Opened(i) && i == 18 ==> !Markable(s, rules)
  }

  lemma HeadsBad(s: Store, rules: Rules)
    requires JobsBad(s, rules) || !HeadOk(s.head, s.states) || (!s.format && (s.head.Some? || s.jobs != map[]))
    ensures Unmarkable(s, rules)
  {
    assert Opened(9);
  }

  /** The jobs and the current job, and that a new store is empty. */
  method RecoverHeads(s: Store, enforce: bool, shareHash: ShareHash, ghost rules: Rules)
    returns (r: Result<(map<Id, Entry>, Option<Id>)>)
    requires Typed(s) && Governs(rules, enforce, shareHash)
    ensures r.Ok? ==> HeadsGood(s, r.value.0, r.value.1, rules)
    ensures r.Err? ==> Unmarkable(s, rules)
  {
    var jobs := RecoverJobs(s, enforce, shareHash, rules);
    if jobs.Err? {
      HeadsBad(s, rules);
      return Err(InvalidDurableState);
    }
    var current := RecoverCurrent(s, jobs.value, rules);
    NoJobs(s, jobs.value, rules);
    if current.Err? || (!s.format && (s.head.Some? || jobs.value != map[])) {
      HeadsBad(s, rules);
      return Err(InvalidDurableState);
    }
    r := Ok((jobs.value, current.value));
  }

  lemma Marked(s: Store, jobs: map<Id, Entry>, current: Option<Id>, rules: Rules)
    requires HeadsGood(s, jobs, current, rules)
    ensures Markable(s, rules)
  {
    assert Opened(8) && Opened(17);
  }

  lemma NotMarked(s: Store, rules: Rules)
    requires Unmarkable(s, rules)
    ensures !Markable(s, rules) && Broken(s, rules)
  {
    assert Opened(18);
  }

  /** The retirement records and the tombstones. */
  method RecoverIndexes(s: Store, jobs: map<Id, Entry>, current: Option<Id>, ghost rules: Rules)
    returns (r: Result<Memory>)
    requires HeadsGood(s, jobs, current, rules)
    ensures r.Ok? ==> IndexesGood(s, r.value, rules)
    ensures r.Err? ==> Broken(s, rules)
  {
    var retiring := RecoverRetiring(s, jobs, rules);
    if retiring.Err? {
      BrokenRecords(s, rules);
      return Err(InvalidDurableState);
    }
    var tombstones := RecoverTombstones(s);
    if tombstones.Err? {
      BrokenRecords(s, rules);
      return Err(InvalidDurableState);
    }
    r := Ok(Memory(jobs, current, s.tombstones.Keys, [], map[], map[], tombstones.value, retiring.value));
    IndexesRead(s, r.value, rules);
  }

  lemma IndexesRead(s: Store, m: Memory, rules: Rules)
    requires HeadsGood(s, m.jobs, m.current, rules) && Named(s) && m.retiring == s.retiring.Keys
    requires TombstonesOk(s.tombstones, s.jobs) && |s.tombstones| <= MAX_CAPTURES
    requires TombstonesRead(s, s.tombstones.Keys, m.tombstones)
    ensures IndexesGood(s, m, rules)
  {
    assert Opened(17);
    TombstonesReadAll(s, m.tombstones);
  }

  /** A memory is rebuilt exactly for recoverable stores, and mirrors the store. */
  ghost predicate Rebuilt(s: Store, r: Result<Memory>, rules: Rules) {
    (r.Ok? <==> Recoverable(s, rules)) && (r.Ok? ==> Mirrors(s, r.value, rules.key))
  }

  /** Opening succeeds exactly on recoverable stores, and builds the mirror of the store. */
  method Recover(s: Store, enforce: bool, shareHash: ShareHash, order: Capture -> nat, ghost rules: Rules)
    returns (r: Result<Memory>, after: Store)
    requires Typed(s) && Governs(rules, enforce, shareHash)
    ensures Rebuilt(s, r, rules)
    ensures after == if Markable(s, rules) then s.(format := true) else s
    ensures r.Ok? ==> Markable(s, rules) && Sorted(r.value.forwarded, order)
  {
    after := s;
    var heads := RecoverHeads(s, enforce, shareHash, rules);
    if heads.Err? {
      NotMarked(s, rules);
      NotRebuilt(s, rules);
      return Err(InvalidDurableState), after;
    }
    Marked(s, heads.value.0, heads.value.1, rules);
    after := s.(format := true);
    r := RecoverRest(s, heads.value.0, heads.value.1, enforce, shareHash, order, rules);
  }

  method RecoverRest(s: Store, jobs: map<Id, Entry>, current: Option<Id>, enforce: bool, shareHash: ShareHash,
                     order: Capture -> nat, ghost rules: Rules) returns (r: Result<Memory>)
    requires HeadsGood(s, jobs, current, rules) && Governs(rules, enforce, shareHash)
    ensures Rebuilt(s, r, rules)
    ensures r.Ok? ==> Sorted(r.value.forwarded, order)
  {
    var indexes := RecoverIndexes(s, jobs, current, rules);
    if indexes.Err? {
      NotRebuilt(s, rules);
      return Err(InvalidDurableState);
    }
    var m := indexes.value;
    var captures := RecoverCaptures(s, m.jobs, enforce, shareHash, rules);
    if captures.Err? {
      BrokenCaptures(s, rules);
      NotRebuilt(s, rules);
      return Err(InvalidDurableState);
    }
    var (forwarded, pending) := captures.value;
    if m.retiring * pending.Keys != {} {
      RetiringBusy(s, m, forwarded, pending, rules);
      NotRebuilt(s, rules);
      return Err(InvalidDurableState);
    }
    var queue, places := RebuildQueue(s, forwarded, pending, enforce, shareHash, order, rules);
    Assemble(s, m, forwarded, pending, queue, places, rules);
    r := Ok(m.(seen := s.captures.Keys + s.tombstones.Keys, forwarded := queue, indexes := places, pending := pending));
  }

  lemma NotRebuilt(s: Store, rules: Rules)
    requires Broken(s, rules)
    ensures Rebuilt(s, Err(InvalidDurableState), rules)
  {
    assert Opened(14);
  }

  lemma JobsMean(s: Store, m: Memory, rules: Rules)
    requires IndexesGood(s, m, rules)
    ensures JobsOk(s.jobs, s.states, rules) && MirrorsJobs(s.jobs, s.states, m.jobs)
  {
    assert Opened(8);
  }

  lemma IndexesMean(s: Store, m: Memory, rules: Rules)
    requires IndexesGood(s, m, rules)
    ensures HeadOk(s.head, s.states) && m.current == CurrentOf(s.jobs, s.head)
    ensures (!s.format ==> s.head.None? && s.jobs == map[]) && m.retiring == s.retiring.Keys
    ensures TombstonesOk(s.tombstones, s.jobs) && MirrorsTombstones(s.tombstones, m.tombstones)
  {
    assert Opened(15);
  }

  lemma CapturesMean(s: Store, rules: Rules)
    requires exists seen :: Seen(s, {}, seen, rules)
    ensures CapturesOk(s.captures, s.jobs, rules) && KeysOk(s.captures, s.tombstones)
  {
    var seen :| Seen(s, {}, seen, rules);
    SeenAll(s, seen, rules);
  }

  lemma Assemble(
      s: Store, m: Memory, forwarded: seq<Capture>, pending: map<nat, nat>, queue: seq<Capture>, places: map<Key, nat>,
      rules: Rules)
    requires IndexesGood(s, m, rules) && MirrorsQueue(s.captures, queue, places, rules.key)
    requires CapturesRead(s, s.captures.Keys, forwarded, pending, rules) && exists seen :: Seen(s, {}, seen, rules)
    requires m.retiring * pending.Keys == {}
    ensures Rebuilt(s, Ok(m.(seen := s.captures.Keys + s.tombstones.Keys, forwarded := queue, indexes := places,
                             pending := pending)), rules)
  {
    JobsMean(s, m, rules);
    IndexesMean(s, m, rules);
    CapturesMean(s, rules);
    RetiringIdle(s, m, forwarded, pending, rules);
    CapturesReadAll(s, forwarded, pending, rules);
    forall q | q in s.retiring.Keys ensures q !in pending.Keys {
      assert q !in m.retiring * pending.Keys;
    }
    assert Recoverable(s, rules);
    var n := m.(seen := s.captures.Keys + s.tombstones.Keys, forwarded := queue, indexes := places, pending := pending);
    assert Mirrors(s, n, rules.key);
  }
}
