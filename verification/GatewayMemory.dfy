/**
 The gateway's memory (crates/meshmine-gateway/src/lib.rs): redundant indexes
 over the durable store, and how each is kept equal to what reopening the
 store would build.
 */
module GatewayMemory {
  import opened Wrappers
  import opened GatewayStore
  import opened Sorting

  datatype Entry = Entry(job: Job, state: JobState)

  datatype Memory = Memory(
    jobs: map<Id, Entry>,
    current: Option<Id>,
    seen: set<Key>,
    forwarded: seq<Capture>,
    indexes: map<Key, nat>,
    pending: map<nat, nat>,
    tombstones: map<nat, set<Key>>,
    retiring: set<nat>)

  // ---- Jobs ----

  predicate EntryFor(jobs: map<nat, Job>, states: map<nat, JobState>, memory: map<Id, Entry>, q: nat)
    requires q in jobs
  {
    jobs[q].id in memory && q in states && memory[jobs[q].id] == Entry(jobs[q], states[q])
  }

  predicate NamedBy(jobs: map<nat, Job>, memory: map<Id, Entry>, id: Id)
    requires id in memory
  {
    memory[id].job.id == id && memory[id].job.sequence in jobs && jobs[memory[id].job.sequence] == memory[id].job
  }

  predicate MirrorsJobs(jobs: map<nat, Job>, states: map<nat, JobState>, memory: map<Id, Entry>) {
    && |memory| == |jobs|
    && (forall q :: q in jobs ==> EntryFor(jobs, states, memory, q))
    && (forall id :: id in memory ==> NamedBy(jobs, memory, id))
  }

  lemma MirrorAdd(
      jobs: map<nat, Job>, states: map<nat, JobState>, memory: map<Id, Entry>, q: nat, job: Job, state: JobState)
    requires MirrorsJobs(jobs, states, memory) && q !in jobs && job.sequence == q && job.id !in memory
    ensures MirrorsJobs(jobs[q := job], states[q := state], memory[job.id := Entry(job, state)])
  {
    var jobs', states', memory' := jobs[q := job], states[q := state], memory[job.id := Entry(job, state)];
    assert jobs'.Keys == jobs.Keys + {q} && memory'.Keys == memory.Keys + {job.id};
    forall p | p in jobs' ensures EntryFor(jobs', states', memory', p) {
      assert p in jobs ==> EntryFor(jobs, states, memory, p);
    }
    forall id | id in memory' ensures NamedBy(jobs', memory', id) {
      assert id in memory ==> NamedBy(jobs, memory, id);
    }
  }

  predicate UniqueIds(jobs: map<nat, Job>) {
    forall p, q :: p in jobs && q in jobs && jobs[p].id == jobs[q].id ==> p == q
  }

  lemma MirrorState(jobs: map<nat, Job>, states: map<nat, JobState>, memory: map<Id, Entry>, q: nat, state: JobState)
    requires MirrorsJobs(jobs, states, memory) && UniqueIds(jobs) && q in jobs
    ensures MirrorsJobs(jobs, states[q := state], memory[jobs[q].id := Entry(jobs[q], state)])
  {
    var states', memory' := states[q := state], memory[jobs[q].id := Entry(jobs[q], state)];
    assert EntryFor(jobs, states, memory, q);
    assert NamedBy(jobs, memory, jobs[q].id);
    assert memory'.Keys == memory.Keys;
    forall p | p in jobs ensures EntryFor(jobs, states', memory', p) {
      assert EntryFor(jobs, states, memory, p);
    }
    forall id | id in memory' ensures NamedBy(jobs, memory', id) {
      assert NamedBy(jobs, memory, id);
    }
  }

  lemma MirrorRemove(jobs: map<nat, Job>, states: map<nat, JobState>, memory: map<Id, Entry>, q: nat)
    requires MirrorsJobs(jobs, states, memory) && UniqueIds(jobs) && q in jobs
    ensures MirrorsJobs(jobs - {q}, states - {q}, memory - {jobs[q].id})
  {
    var jobs', states', memory' := jobs - {q}, states - {q}, memory - {jobs[q].id};
    assert EntryFor(jobs, states, memory, q);
    assert NamedBy(jobs, memory, jobs[q].id);
    assert jobs'.Keys == jobs.Keys - {q} && memory'.Keys == memory.Keys - {jobs[q].id};
    forall p | p in jobs' ensures EntryFor(jobs', states', memory', p) {
      assert EntryFor(jobs, states, memory, p);
    }
    forall id | id in memory' ensures NamedBy(jobs', memory', id) {
      assert NamedBy(jobs, memory, id);
      assert EntryFor(jobs, states, memory, memory[id].job.sequence);
    }
  }

  function CurrentOf(jobs: map<nat, Job>, head: Option<nat>): Option<Id> {
    if head.Some? && head.value in jobs then Some(jobs[head.value].id) else None
  }

  // ---- Pending captures ----

  predicate IndexedAt(captures: map<Key, Capture>, forwarded: seq<Capture>, indexes: map<Key, nat>, k: Key)
    requires k in captures
  {
    k in indexes && indexes[k] < |forwarded| && forwarded[indexes[k]] == captures[k]
  }

  predicate KeyedAt(
      captures: map<Key, Capture>, forwarded: seq<Capture>, indexes: map<Key, nat>, key: Capture -> Key, i: nat)
    requires i < |forwarded|
  {
    key(forwarded[i]) in captures && key(forwarded[i]) in indexes && indexes[key(forwarded[i])] == i
  }

  /** The queue holds exactly the stored captures, and the index finds each. */
  predicate MirrorsQueue(
      captures: map<Key, Capture>, forwarded: seq<Capture>, indexes: map<Key, nat>, key: Capture -> Key) {
    && indexes.Keys == captures.Keys
    && (forall k :: k in captures ==> key(captures[k]) == k && IndexedAt(captures, forwarded, indexes, k))
    && (forall i :: 0 <= i < |forwarded| ==> KeyedAt(captures, forwarded, indexes, key, i))
  }

  lemma QueuePush(
      captures: map<Key, Capture>, forwarded: seq<Capture>, indexes: map<Key, nat>, key: Capture -> Key, c: Capture)
    requires MirrorsQueue(captures, forwarded, indexes, key) && key(c) !in captures
    ensures MirrorsQueue(captures[key(c) := c], forwarded + [c], indexes[key(c) := |forwarded|], key)
  {
    var captures', forwarded', indexes' := captures[key(c) := c], forwarded + [c], indexes[key(c) := |forwarded|];
    forall k | k in captures' ensures key(captures'[k]) == k && IndexedAt(captures', forwarded', indexes', k) {
      assert k in captures ==> IndexedAt(captures, forwarded, indexes, k);
    }
    forall i | 0 <= i < |forwarded'| ensures KeyedAt(captures', forwarded', indexes', key, i) {
      assert i < |forwarded| ==> KeyedAt(captures, forwarded, indexes, key, i);
    }
  }

  /** `Vec::swap_remove`: the last element takes the removed one's place. */
  function SwapRemove(s: seq<Capture>, i: nat): seq<Capture>
    requires i < |s|
  {
    var last := |s| - 1;
    if i == last then s[..last] else s[..last][i := s[last]]
  }

  /** The index after a swap removal: the moved capture is found at its new place. */
  function IndexAfter(indexes: map<Key, nat>, k: Key, moved: seq<Capture>, i: nat, key: Capture -> Key): map<Key, nat> {
    if i < |moved| then (indexes - {k})[key(moved[i]) := i] else indexes - {k}
  }

  lemma QueueSwapRemove(
      captures: map<Key, Capture>, forwarded: seq<Capture>, indexes: map<Key, nat>, key: Capture -> Key, k: Key)
    requires MirrorsQueue(captures, forwarded, indexes, key) && k in captures
    ensures indexes[k] < |forwarded|
    ensures var moved := SwapRemove(forwarded, indexes[k]);
            MirrorsQueue(captures - {k}, moved, IndexAfter(indexes, k, moved, indexes[k], key), key)
  {
    assert IndexedAt(captures, forwarded, indexes, k);
    var i, last := indexes[k], |forwarded| - 1;
    var moved := SwapRemove(forwarded, i);
    var captures', indexes' := captures - {k}, IndexAfter(indexes, k, moved, i, key);
    assert KeyedAt(captures, forwarded, indexes, key, last) && KeyedAt(captures, forwarded, indexes, key, i);
    forall p | p in captures' ensures key(captures'[p]) == p && IndexedAt(captures', moved, indexes', p) {
      assert IndexedAt(captures, forwarded, indexes, p);
    }
    forall j | 0 <= j < |moved| ensures KeyedAt(captures', moved, indexes', key, j) {
      assert KeyedAt(captures, forwarded, indexes, key, j);
    }
    assert indexes'.Keys == captures'.Keys;
  }

  // ---- Counts per assignment ----

  function KeysFor(captures: map<Key, Capture>, q: nat): set<Key> { set k | k in captures && captures[k].sequence == q }

  /** Assignments without pending captures have no entry. */
  ghost predicate MirrorsPending(captures: map<Key, Capture>, pending: map<nat, nat>) {
    forall q: nat :: PendingAt(captures, pending, q)
  }

  predicate PendingAt(captures: map<Key, Capture>, pending: map<nat, nat>, q: nat) {
    if KeysFor(captures, q) == {} then q !in pending else q in pending && pending[q] == |KeysFor(captures, q)|
  }

  function CountUp(pending: map<nat, nat>, q: nat): map<nat, nat> {
    pending[q := (if q in pending then pending[q] else 0) + 1]
  }

  function CountDown(pending: map<nat, nat>, q: nat): map<nat, nat>
    requires q in pending && pending[q] > 0
  {
    if pending[q] == 1 then pending - {q} else pending[q := pending[q] - 1]
  }

  lemma PendingAdd(captures: map<Key, Capture>, pending: map<nat, nat>, k: Key, c: Capture)
    requires MirrorsPending(captures, pending) && k !in captures
    ensures MirrorsPending(captures[k := c], CountUp(pending, c.sequence))
  {
    var captures', pending' := captures[k := c], CountUp(pending, c.sequence);
    forall q: nat ensures PendingAt(captures', pending', q) {
      assert PendingAt(captures, pending, q);
      if q == c.sequence {
        assert KeysFor(captures', q) == KeysFor(captures, q) + {k};
      } else {
        assert KeysFor(captures', q) == KeysFor(captures, q);
      }
    }
  }

  lemma PendingRemove(captures: map<Key, Capture>, pending: map<nat, nat>, k: Key)
    requires MirrorsPending(captures, pending) && k in captures
    ensures var q := captures[k].sequence;
            q in pending && pending[q] > 0 && MirrorsPending(captures - {k}, CountDown(pending, q))
  {
    var p := captures[k].sequence;
    assert k in KeysFor(captures, p);
    assert PendingAt(captures, pending, p);
    var captures', pending' := captures - {k}, CountDown(pending, p);
    forall q: nat ensures PendingAt(captures', pending', q) {
      assert PendingAt(captures, pending, q);
      if q == p {
        assert KeysFor(captures', q) == KeysFor(captures, q) - {k};
        assert |KeysFor(captures', q)| == |KeysFor(captures, q)| - 1;
      } else {
        assert KeysFor(captures', q) == KeysFor(captures, q);
      }
    }
  }

  lemma PendingMeans(captures: map<Key, Capture>, pending: map<nat, nat>, q: nat)
    requires MirrorsPending(captures, pending)
    ensures q in pending <==> Pending(captures, q)
    ensures q in pending ==> pending[q] > 0
  {
    assert PendingAt(captures, pending, q);
    if Pending(captures, q) {
      var k :| k in captures && captures[k].sequence == q;
      assert k in KeysFor(captures, q);
    } else {
      assert KeysFor(captures, q) == {};
    }
  }

  // ---- Tombstones per assignment ----

  function TombstonesFor(tombstones: map<Key, nat>, q: nat): set<Key> { set k | k in tombstones && tombstones[k] == q }

  predicate TombstonesAt(tombstones: map<Key, nat>, memory: map<nat, set<Key>>, q: nat) {
    if TombstonesFor(tombstones, q) == {} then q !in memory
       else q in memory && memory[q] == TombstonesFor(tombstones, q)
  }

  ghost predicate MirrorsTombstones(tombstones: map<Key, nat>, memory: map<nat, set<Key>>) {
    forall q: nat :: TombstonesAt(tombstones, memory, q)
  }

  function TombstoneUp(memory: map<nat, set<Key>>, q: nat, k: Key): map<nat, set<Key>> {
    memory[q := (if q in memory then memory[q] else {}) + {k}]
  }

  function TombstonesDown(memory: map<nat, set<Key>>, q: nat, keys: set<Key>): map<nat, set<Key>>
    requires q in memory
  {
    if memory[q] - keys == {} then memory - {q} else memory[q := memory[q] - keys]
  }

  lemma TombstoneAdd(tombstones: map<Key, nat>, memory: map<nat, set<Key>>, q: nat, k: Key)
    requires MirrorsTombstones(tombstones, memory) && k !in tombstones
    ensures MirrorsTombstones(tombstones[k := q], TombstoneUp(memory, q, k))
  {
    var tombstones', memory' := tombstones[k := q], TombstoneUp(memory, q, k);
    forall p: nat ensures TombstonesAt(tombstones', memory', p) {
      assert TombstonesAt(tombstones, memory, p);
      if p == q {
        assert TombstonesFor(tombstones', p) == TombstonesFor(tombstones, p) + {k};
      } else {
        assert TombstonesFor(tombstones', p) == TombstonesFor(tombstones, p);
      }
    }
  }

  lemma TombstonesRemove(tombstones: map<Key, nat>, memory: map<nat, set<Key>>, q: nat, keys: set<Key>)
    requires MirrorsTombstones(tombstones, memory) && q in memory && keys <= memory[q]
    ensures MirrorsTombstones(tombstones - keys, TombstonesDown(memory, q, keys))
    ensures forall k :: k in keys ==> k in tombstones && tombstones[k] == q
  {
    assert TombstonesAt(tombstones, memory, q);
    var tombstones', memory' := tombstones - keys, TombstonesDown(memory, q, keys);
    forall p: nat ensures TombstonesAt(tombstones', memory', p) {
      assert TombstonesAt(tombstones, memory, p);
      if p == q {
        assert TombstonesFor(tombstones', p) == TombstonesFor(tombstones, p) - keys;
      } else {
        assert TombstonesFor(tombstones', p) == TombstonesFor(tombstones, p);
      }
    }
  }

  lemma TombstonesMean(tombstones: map<Key, nat>, memory: map<nat, set<Key>>, q: nat)
    requires MirrorsTombstones(tombstones, memory)
    ensures q in memory <==> Tombstoned(tombstones, q)
    ensures q in memory ==> memory[q] != {}
  {
    assert TombstonesAt(tombstones, memory, q);
    if Tombstoned(tombstones, q) {
      var k :| k in tombstones && tombstones[k] == q;
      assert k in TombstonesFor(tombstones, q);
    } else {
      assert TombstonesFor(tombstones, q) == {};
    }
  }

  // ---- The whole memory ----

  /** The memory is what reopening the store builds, up to the order of the queue. */
  ghost predicate Mirrors(s: Store, m: Memory, key: Capture -> Key) {
    && MirrorsJobs(s.jobs, s.states, m.jobs) && m.current == CurrentOf(s.jobs, s.head)
    && m.seen == s.captures.Keys + s.tombstones.Keys
    && MirrorsQueue(s.captures, m.forwarded, m.indexes, key)
    && MirrorsPending(s.captures, m.pending) && MirrorsTombstones(s.tombstones, m.tombstones)
    && m.retiring == s.retiring.Keys
  }

  lemma SeenSize(s: Store, seen: set<Key>)
    requires KeysOk(s.captures, s.tombstones) && seen == s.captures.Keys + s.tombstones.Keys
    ensures |seen| == |s.captures| + |s.tombstones|
  {
  }

  /** Two memories of one store agree on everything but the order of the queue. */
  lemma MirrorsUnique(s: Store, m: Memory, n: Memory, key: Capture -> Key)
    requires Mirrors(s, m, key) && Mirrors(s, n, key)
    ensures m.jobs == n.jobs && m.current == n.current && m.seen == n.seen && m.retiring == n.retiring
    ensures m.pending == n.pending && m.tombstones == n.tombstones
    ensures m.indexes.Keys == n.indexes.Keys && multiset(m.forwarded) == multiset(n.forwarded)
  {
    UniqueJobs(s.jobs, s.states, m.jobs, n.jobs);
    UniqueJobs(s.jobs, s.states, n.jobs, m.jobs);
    UniquePending(s.captures, m.pending, n.pending);
    UniqueTombstones(s.tombstones, m.tombstones, n.tombstones);
    UniqueQueue(s.captures, m.forwarded, m.indexes, n.forwarded, n.indexes, key);
    UniqueQueue(s.captures, n.forwarded, n.indexes, m.forwarded, m.indexes, key);
    QueueDistinct(s.captures, m.forwarded, m.indexes, key);
    QueueDistinct(s.captures, n.forwarded, n.indexes, key);
    DistinctMultiset(m.forwarded);
    DistinctMultiset(n.forwarded);
  }

  lemma QueueDistinct(captures: map<Key, Capture>, forwarded: seq<Capture>, indexes: map<Key, nat>, key: Capture -> Key)
    requires MirrorsQueue(captures, forwarded, indexes, key)
    ensures NoDuplicates(forwarded)
  {
    forall i, j | 0 <= i < j < |forwarded| ensures forwarded[i] != forwarded[j] {
      assert KeyedAt(captures, forwarded, indexes, key, i) && KeyedAt(captures, forwarded, indexes, key, j);
    }
  }

  lemma {:induction false} DistinctMultiset(s: seq<Capture>)
    requires NoDuplicates(s)
    ensures forall c :: multiset(s)[c] == if c in s then 1 else 0
  {
    if s != [] {
      var n := |s| - 1;
      DistinctMultiset(s[..n]);
      assert s == s[..n] + [s[n]];
    }
  }

  lemma UniqueJobs(jobs: map<nat, Job>, states: map<nat, JobState>, m: map<Id, Entry>, n: map<Id, Entry>)
    requires MirrorsJobs(jobs, states, m) && MirrorsJobs(jobs, states, n)
    ensures forall id :: id in m ==> id in n && n[id] == m[id]
  {
    forall id | id in m ensures id in n && n[id] == m[id] {
      assert NamedBy(jobs, m, id);
      assert EntryFor(jobs, states, m, m[id].job.sequence) && EntryFor(jobs, states, n, m[id].job.sequence);
    }
  }

  lemma UniquePending(captures: map<Key, Capture>, m: map<nat, nat>, n: map<nat, nat>)
    requires MirrorsPending(captures, m) && MirrorsPending(captures, n)
    ensures m == n
  {
    forall q: nat ensures (q in m <==> q in n) && (q in m ==> m[q] == n[q]) {
      assert PendingAt(captures, m, q) && PendingAt(captures, n, q);
    }
  }

  lemma UniqueTombstones(tombstones: map<Key, nat>, m: map<nat, set<Key>>, n: map<nat, set<Key>>)
    requires MirrorsTombstones(tombstones, m) && MirrorsTombstones(tombstones, n)
    ensures m == n
  {
    forall q: nat ensures (q in m <==> q in n) && (q in m ==> m[q] == n[q]) {
      assert TombstonesAt(tombstones, m, q) && TombstonesAt(tombstones, n, q);
    }
  }

  lemma UniqueQueue(
      captures: map<Key, Capture>, a: seq<Capture>, i: map<Key, nat>, b: seq<Capture>, j: map<Key, nat>,
      key: Capture -> Key)
    requires MirrorsQueue(captures, a, i, key) && MirrorsQueue(captures, b, j, key)
    ensures forall c :: c in a ==> c in b
  {
    forall c | c in a ensures c in b {
      var p :| 0 <= p < |a| && a[p] == c;
      assert KeyedAt(captures, a, i, key, p);
      assert IndexedAt(captures, a, i, key(c)) && IndexedAt(captures, b, j, key(c));
    }
  }
}
