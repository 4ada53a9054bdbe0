/**
 Closing and retiring jobs (crates/meshmine-gateway/src/lib.rs), on values: which
 jobs a sweep closes, and what one retirement pass does to the memory.
 */
module GatewayRetire {
  import opened Wrappers
  import opened GatewayStore
  import opened GatewayMemory
  import opened GatewaySteps

  const MAX_RETIREMENTS_PER_PASS: nat := 1_024
  const RETIRE_DELETE_BATCH: nat := 4_096

  function Least(a: nat, b: nat): nat { if a <= b then a else b }

  // ---- The sweep ----

  predicate Expired(entry: Entry, nowMs: nat) {
    match entry.state
    case Active => nowMs > entry.job.submissionEndMs
    case Grace(_, end) => nowMs > end
    case Closed => false
  }

  /** The jobs with every expired one closed. */
  function Swept(jobs: map<Id, Entry>, nowMs: nat): map<Id, Entry> {
    map id | id in jobs :: if Expired(jobs[id], nowMs) then Entry(jobs[id].job, Closed) else jobs[id]
  }

  /** The sweep, done except for the jobs to do. */
  predicate SweptFrom(before: map<Id, Entry>, jobs: map<Id, Entry>, nowMs: nat, todo: set<Id>) {
    && jobs.Keys == before.Keys
    && (forall id :: id in todo ==> id in before && Expired(before[id], nowMs))
    && (forall id :: id in jobs ==> jobs[id] == if id in todo then before[id] else Swept(before, nowMs)[id])
  }

  lemma SweepStart(jobs: map<Id, Entry>, nowMs: nat, expired: set<Id>)
    requires expired == set id | id in jobs && Expired(jobs[id], nowMs)
    ensures SweptFrom(jobs, jobs, nowMs, expired)
  {
  }

  lemma SweepOne(before: map<Id, Entry>, jobs: map<Id, Entry>, nowMs: nat, todo: set<Id>, id: Id)
    requires SweptFrom(before, jobs, nowMs, todo) && id in todo
    ensures id in jobs && jobs[id] == before[id] && !jobs[id].state.Closed?
    ensures SweptFrom(before, jobs[id := Entry(jobs[id].job, Closed)], nowMs, todo - {id})
  {
  }

  lemma SweepEnd(before: map<Id, Entry>, jobs: map<Id, Entry>, nowMs: nat)
    requires SweptFrom(before, jobs, nowMs, {})
    ensures jobs == Swept(before, nowMs)
  {
  }

  // ---- One job ----

  /** A closed job that no capture waits for. */
  predicate Idle(entry: Entry, pending: map<nat, nat>) { entry.state.Closed? && entry.job.sequence !in pending }

  function IdleJobs(jobs: map<Id, Entry>, pending: map<nat, nat>): set<Id> {
    set id | id in jobs && Idle(jobs[id], pending)
  }

  /** One batch of the tombstones of an assignment is gone, or all of them if they are fewer. */
  predicate Shrunk(before: map<nat, set<Key>>, after: map<nat, set<Key>>, q: nat)
    requires q in before
  {
    var left := if q in after then after[q] else {};
    left <= before[q] && |before[q]| - |left| == Least(RETIRE_DELETE_BATCH, |before[q]|)
  }

  predicate SameTombstonesAt(before: map<nat, set<Key>>, after: map<nat, set<Key>>, p: nat) {
    (p in after <==> p in before) && (p in before ==> after[p] == before[p])
  }

  /** Nothing about an assignment changed. */
  predicate SameAt(before: Memory, after: Memory, p: nat) {
    (p in after.retiring <==> p in before.retiring) && SameTombstonesAt(before.tombstones, after.tombstones, p)
  }

  ghost predicate OthersSame(before: Memory, after: Memory, q: nat) {
    forall p: nat :: p != q ==> SameAt(before, after, p)
  }

  /**
   One step of a retirement: while tombstones are left, a batch of them goes and the job stays marked; when none is
   left, the job goes.
   */
  ghost predicate Advanced(before: Memory, after: Memory, id: Id, q: nat) {
    && after.pending == before.pending && OthersSame(before, after, q)
    && if q in before.tombstones
       then after.jobs == before.jobs && q in after.retiring && Shrunk(before.tombstones, after.tombstones, q)
       else after.jobs == before.jobs - {id} && q !in after.retiring && q !in after.tombstones
  }

  lemma MarkThenAdvance(before: Memory, marked: Memory, after: Memory, id: Id, q: nat)
    requires marked == before.(retiring := before.retiring + {q}) && Advanced(marked, after, id, q)
    ensures Advanced(before, after, id, q)
  {
    forall p: nat | p != q ensures SameAt(before, after, p) {
      assert SameAt(marked, after, p);
    }
  }

  lemma DropIsAdvance(before: Memory, after: Memory, id: Id, q: nat, keys: set<Key>)
    requires q in before.retiring && q in before.tombstones && keys <= before.tombstones[q]
    requires |keys| == Least(RETIRE_DELETE_BATCH, |before.tombstones[q]|)
    requires after.jobs == before.jobs && after.pending == before.pending && after.retiring == before.retiring
    requires after.tombstones == TombstonesDown(before.tombstones, q, keys)
    ensures Advanced(before, after, id, q)
  {
    assert before.tombstones[q] == keys + (before.tombstones[q] - keys);
  }

  lemma FinishIsAdvance(before: Memory, after: Memory, id: Id, q: nat)
    requires q !in before.tombstones
    requires after.jobs == before.jobs - {id} && after.pending == before.pending
    requires after.retiring == before.retiring - {q} && after.tombstones == before.tombstones
    ensures Advanced(before, after, id, q)
  {
  }

  // ---- One pass ----

  predicate Distinct(jobs: map<Id, Entry>) {
    forall a, b :: a in jobs && b in jobs && jobs[a].job.sequence == jobs[b].job.sequence ==> a == b
  }

  lemma SequencesDistinct(s: Store, m: Memory, rules: Rules)
    requires Consistent(s, m, rules)
    ensures Distinct(m.jobs)
  {
    forall a, b | a in m.jobs && b in m.jobs && m.jobs[a].job.sequence == m.jobs[b].job.sequence ensures a == b {
      JobFacts(s, m, rules, a);
      JobFacts(s, m, rules, b);
    }
  }

  /** A job taken up in the pass. */
  predicate TakenAt(before: Memory, after: Memory, id: Id)
    requires id in before.jobs
  {
    var q := before.jobs[id].job.sequence;
    if q in before.tombstones then id in after.jobs && q in after.retiring
       && Shrunk(before.tombstones, after.tombstones, q)
    else id !in after.jobs && q !in after.retiring && q !in after.tombstones
  }

  predicate Lowest(jobs: map<Id, Entry>, all: set<Id>, taken: set<Id>) {
    forall a, b :: a in taken && b in all && b !in taken && a in jobs && b in jobs ==>
      jobs[a].job.sequence < jobs[b].job.sequence
  }

  predicate NotTaken(jobs: map<Id, Entry>, taken: set<Id>, p: nat) {
    forall id :: id in taken && id in jobs ==> jobs[id].job.sequence != p
  }

  predicate JobsKept(before: map<Id, Entry>, after: map<Id, Entry>, taken: set<Id>) {
    && (forall id :: id in after ==> id in before && after[id] == before[id])
    && (forall id :: id in before && id !in taken ==> id in after)
  }

  /** The jobs taken up are the idle ones with the lowest numbers; each went one step, and nothing else changed. */
  ghost predicate Passed(before: Memory, after: Memory, taken: set<Id>) {
    var all := IdleJobs(before.jobs, before.pending);
    && after.pending == before.pending && taken <= all && Lowest(before.jobs, all, taken)
    && JobsKept(before.jobs, after.jobs, taken)
    && (forall id :: id in taken ==> TakenAt(before, after, id))
    && (forall p: nat :: NotTaken(before.jobs, taken, p) ==> SameAt(before, after, p))
  }

  ghost predicate PassSoFar(before: Memory, after: Memory, taken: set<Id>) {
    forall i: int {:trigger Opened(i)} :: Opened(i) && i == 16 ==> Passed(before, after, taken)
  }

  /** As many jobs as fit one pass were taken up. */
  ghost predicate PassDone(before: Memory, after: Memory, taken: set<Id>) {
    Passed(before, after, taken) && |taken| == Least(MAX_RETIREMENTS_PER_PASS, |IdleJobs(before.jobs, before.pending)|)
  }

  lemma PassStart(m: Memory)
    ensures PassSoFar(m, m, {})
  {
  }

  lemma PassOpen(before: Memory, now: Memory, taken: set<Id>)
    requires PassSoFar(before, now, taken)
    ensures taken <= IdleJobs(before.jobs, before.pending)
    ensures forall id :: id in IdleJobs(before.jobs, before.pending) && id !in taken ==>
              id in now.jobs && now.jobs[id] == before.jobs[id] && Idle(now.jobs[id], now.pending)
  {
    assert Opened(16);
  }

  lemma PassNext(before: Memory, now: Memory, after: Memory, taken: set<Id>, id: Id)
    requires PassSoFar(before, now, taken) && Distinct(before.jobs)
    requires id in IdleJobs(before.jobs, before.pending) && id !in taken
    requires forall b :: b in IdleJobs(before.jobs, before.pending) && b !in taken ==>
               before.jobs[id].job.sequence <= before.jobs[b].job.sequence
    requires Advanced(now, after, id, before.jobs[id].job.sequence)
    ensures PassSoFar(before, after, taken + {id})
  {
    assert Passed(before, now, taken) by {
      assert Opened(16);
    }
    TakenNext(before, now, after, taken, id);
    SameNext(before, now, after, taken, id);
    LowestNext(before.jobs, IdleJobs(before.jobs, before.pending), taken, id);
    assert Passed(before, after, taken + {id});
  }

  lemma TakenNext(before: Memory, now: Memory, after: Memory, taken: set<Id>, id: Id)
    requires Passed(before, now, taken) && Distinct(before.jobs) && id in before.jobs && id !in taken
    requires Advanced(now, after, id, before.jobs[id].job.sequence)
    ensures forall a :: a in taken + {id} ==> a in before.jobs && TakenAt(before, after, a)
    ensures JobsKept(before.jobs, after.jobs, taken + {id})
  {
    forall a | a in taken ensures TakenAt(before, after, a) {
      TakenStays(before, now, after, a, id);
    }
    assert NotTaken(before.jobs, taken, before.jobs[id].job.sequence)
           && SameAt(before, now, before.jobs[id].job.sequence);
    assert TakenAt(before, after, id);
  }

  lemma SameNext(before: Memory, now: Memory, after: Memory, taken: set<Id>, id: Id)
    requires Passed(before, now, taken) && id in before.jobs && Advanced(now, after, id, before.jobs[id].job.sequence)
    ensures forall p: nat :: NotTaken(before.jobs, taken + {id}, p) ==> SameAt(before, after, p)
  {
    forall p: nat | NotTaken(before.jobs, taken + {id}, p) ensures SameAt(before, after, p) {
      assert id in taken + {id} && p != before.jobs[id].job.sequence;
      assert NotTaken(before.jobs, taken, p) && SameAt(before, now, p) && SameAt(now, after, p);
    }
  }

  lemma TakenStays(before: Memory, now: Memory, after: Memory, a: Id, id: Id)
    requires a in before.jobs && id in before.jobs && a != id && Distinct(before.jobs) && TakenAt(before, now, a)
    requires Advanced(now, after, id, before.jobs[id].job.sequence)
    ensures TakenAt(before, after, a)
  {
    assert SameAt(now, after, before.jobs[a].job.sequence);
  }

  lemma LowestNext(jobs: map<Id, Entry>, all: set<Id>, taken: set<Id>, id: Id)
    requires Distinct(jobs) && Lowest(jobs, all, taken) && id in all && id !in taken && id in jobs
    requires forall b :: b in all && b !in taken && b in jobs ==> jobs[id].job.sequence <= jobs[b].job.sequence
    ensures Lowest(jobs, all, taken + {id})
  {
  }

  lemma PassEnd(before: Memory, after: Memory, taken: set<Id>)
    requires PassSoFar(before, after, taken) && |taken| <= MAX_RETIREMENTS_PER_PASS
    requires |taken| == MAX_RETIREMENTS_PER_PASS || IdleJobs(before.jobs, before.pending) <= taken
    ensures PassDone(before, after, taken)
  {
    assert Opened(16);
    var all := IdleJobs(before.jobs, before.pending);
    if |taken| == MAX_RETIREMENTS_PER_PASS {
      assert all == taken + (all - taken);
    } else {
      assert all == taken;
    }
  }

  /** A pass is about jobs, counts, marks and tombstones only. */
  lemma PassFields(mid: Memory, before: Memory, after: Memory, taken: set<Id>)
    requires PassDone(mid, after, taken) && before.jobs == mid.jobs && before.pending == mid.pending
    requires before.retiring == mid.retiring && before.tombstones == mid.tombstones
    ensures PassDone(before, after, taken)
  {
    forall p: nat | NotTaken(before.jobs, taken, p) ensures SameAt(before, after, p) {
      assert NotTaken(mid.jobs, taken, p) && SameAt(mid, after, p);
    }
    forall id | id in taken ensures TakenAt(before, after, id) {
      assert TakenAt(mid, after, id);
    }
  }

  // ---- The writes of a pass ----

  predicate UpkeepWrite(w: Write) { w.Close? || w.MarkRetiring? || w.DropTombstones? || w.Retire? }

  /** Only jobs and tombstones were written, never captures. */
  ghost predicate Upkeep(before: seq<Write>, after: seq<Write>) {
    before <= after && forall k :: |before| <= k < |after| ==> UpkeepWrite(after[k])
  }

  lemma UpkeepOne(before: seq<Write>, now: seq<Write>, w: Write)
    requires Upkeep(before, now) && UpkeepWrite(w)
    ensures Upkeep(before, now + [w])
  {
  }

  lemma UpkeepMore(before: seq<Write>, now: seq<Write>, after: seq<Write>)
    requires Upkeep(before, now) && Upkeep(now, after)
    ensures Upkeep(before, after)
  {
  }
}
