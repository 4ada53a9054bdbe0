/**
 The durable block publisher (crates/meshmine-fast-path/src/lib.rs). Attempt
 heads, starts and results live in a store that survives crashes and changes
 only by conditional batches. The methods are the publisher's; the machine
 below them lets any number of publishers take those steps in any order, with
 crashes between any two.
 */
module Publisher {
  import opened Wrappers
  const MAX_ATTEMPTS: nat := 16

  /** One publication target of one intent. */
  datatype Slot = Slot(intent: nat, target: nat)

  datatype Kind = Accepted | AlreadyKnown | Rejected | Retryable

  predicate Terminal(kind: Kind) { kind != Retryable }

  datatype Start = Start(slot: Slot, sequence: nat, startedMs: nat)

  datatype Outcome = Outcome(slot: Slot, sequence: nat, completedMs: nat, elapsedUs: nat, kind: Kind, code: nat,
                             detail: nat)

  /** A head names its attempt's record by hash; an ideal hash is the record itself. */
  datatype Head = Started(start: Start) | Completed(outcome: Outcome) {
    function Sequence(): nat { if Started? then start.sequence else outcome.sequence }
  }

  datatype Store = Store(heads: map<Slot, Head>, starts: map<(Slot, nat), Start>, results: map<(Slot, nat), Outcome>)

  function Get<K, V>(m: map<K, V>, k: K): Option<V> { if k in m then Some(m[k]) else None }

  // ---- The two conditional batches ----

  /** Record an attempt's start and move the head to it, if the head is still as expected. */
  function StartWrite(s: Store, expected: Option<Head>, start: Start): Option<Store> {
    if Get(s.heads, start.slot) != expected then None
    else Some(Store(s.heads[start.slot := Started(start)], s.starts[(start.slot, start.sequence) := start], s.results))
  }

  /** Record an attempt's result and complete the head, if the head is still this attempt's start. */
  function ResultWrite(s: Store, start: Start, outcome: Outcome): Option<Store> {
    if Get(s.heads, start.slot) != Some(Started(start)) then None
    else Some(Store(s.heads[start.slot := Completed(outcome)], s.starts,
                    s.results[(start.slot, start.sequence) := outcome]))
  }

  // ---- What every store reached by these batches satisfies ----

  ghost predicate AttemptsOf(s: Store, slot: Slot, n: nat, done: nat) {
    && (forall k: nat :: (slot, k) in s.starts <==> 1 <= k <= n)
    && (forall k: nat :: (slot, k) in s.results <==> 1 <= k <= done)
    && (forall k: nat :: 1 <= k <= n ==> s.starts[(slot, k)].slot == slot && s.starts[(slot, k)].sequence == k)
    && (forall k: nat :: 1 <= k <= done ==> s.results[(slot, k)].slot == slot && s.results[(slot, k)].sequence == k)
    && (forall k: nat :: 1 <= k < n ==> (slot, k) in s.results && s.results[(slot, k)].kind == Retryable)
  }

  /** Attempts are numbered 1 to n, at most 16; all results before the last are retryable; the head names the last. */
  ghost predicate SlotValid(s: Store, slot: Slot) {
    if slot !in s.heads then AttemptsOf(s, slot, 0, 0)
    else
      var n := s.heads[slot].Sequence();
      && 1 <= n <= MAX_ATTEMPTS
      && match s.heads[slot]
         case Started(start) => AttemptsOf(s, slot, n, n - 1) && start == s.starts[(slot, n)]
         case Completed(outcome) => AttemptsOf(s, slot, n, n) && outcome == s.results[(slot, n)]
  }

  ghost predicate Valid(s: Store) { forall slot :: SlotValid(s, slot) }

  /** What a start may follow: nothing, or a retryable result below the bound. */
  predicate MayFollow(expected: Option<Head>, start: Start) {
    match expected
    case None => start.sequence == 1
    case Some(Completed(outcome)) =>
      outcome.kind == Retryable && outcome.sequence < MAX_ATTEMPTS && start.sequence == outcome.sequence + 1
    case Some(Started(_)) => false
  }

  lemma StartKeepsValid(s: Store, expected: Option<Head>, start: Start)
    requires Valid(s) && MayFollow(expected, start) && StartWrite(s, expected, start).Some?
    ensures Valid(StartWrite(s, expected, start).value)
    ensures (start.slot, start.sequence) !in s.starts
  {
    var t := StartWrite(s, expected, start).value;
    assert SlotValid(s, start.slot);
    forall slot ensures SlotValid(t, slot) {
      assert SlotValid(s, slot);
      if slot != start.slot {
        OtherSlot(s, t, slot);
      }
    }
  }

  lemma ResultKeepsValid(s: Store, start: Start, outcome: Outcome)
    requires Valid(s) && ResultWrite(s, start, outcome).Some?
    requires outcome.slot == start.slot && outcome.sequence == start.sequence
    ensures Valid(ResultWrite(s, start, outcome).value)
    ensures (start.slot, start.sequence) !in s.results
  {
    var t := ResultWrite(s, start, outcome).value;
    assert SlotValid(s, start.slot);
    forall slot ensures SlotValid(t, slot) {
      assert SlotValid(s, slot);
      if slot != start.slot {
        OtherSlot(s, t, slot);
      }
    }
  }

  ghost predicate SameSlot(s: Store, t: Store, slot: Slot) {
    && Get(s.heads, slot) == Get(t.heads, slot)
    && (forall k: nat :: Get(s.starts, (slot, k)) == Get(t.starts, (slot, k)))
    && (forall k: nat :: Get(s.results, (slot, k)) == Get(t.results, (slot, k)))
  }

  lemma OtherSlot(s: Store, t: Store, slot: Slot)
    requires SlotValid(s, slot) && SameSlot(s, t, slot)
    ensures SlotValid(t, slot)
  {
    forall k: nat ensures (slot, k) in t.starts <==> (slot, k) in s.starts {
      assert Get(s.starts, (slot, k)) == Get(t.starts, (slot, k));
    }
    forall k: nat ensures (slot, k) in t.results <==> (slot, k) in s.results {
      assert Get(s.results, (slot, k)) == Get(t.results, (slot, k));
    }
    forall k: nat | (slot, k) in s.starts ensures t.starts[(slot, k)] == s.starts[(slot, k)] {
      assert Get(s.starts, (slot, k)) == Get(t.starts, (slot, k));
    }
    forall k: nat | (slot, k) in s.results ensures t.results[(slot, k)] == s.results[(slot, k)] {
      assert Get(s.results, (slot, k)) == Get(t.results, (slot, k));
    }
  }

  /** Exactly this attempt is new, it is the slot's current one, and no other slot is touched. */
  ghost predicate OneMoreStart(s: Store, t: Store, start: Start) {
    && (start.slot, start.sequence) !in s.starts && t.starts.Keys == s.starts.Keys + {(start.slot, start.sequence)}
    && t.starts[(start.slot, start.sequence)] == start && (forall k :: k in s.starts ==> t.starts[k] == s.starts[k])
    && t.results == s.results && Get(t.heads, start.slot) == Some(Started(start))
    && forall slot :: slot != start.slot ==> SameSlot(s, t, slot)
  }

  /** Exactly this result is new, it completes the slot's current attempt, and no other slot is touched. */
  ghost predicate OneMoreResult(s: Store, t: Store, outcome: Outcome) {
    && (outcome.slot, outcome.sequence) !in s.results
    && t.results.Keys == s.results.Keys + {(outcome.slot, outcome.sequence)}
    && t.results[(outcome.slot, outcome.sequence)] == outcome
       && (forall k :: k in s.results ==> t.results[k] == s.results[k])
    && t.starts == s.starts && Get(t.heads, outcome.slot) == Some(Completed(outcome))
    && forall slot :: slot != outcome.slot ==> SameSlot(s, t, slot)
  }

  lemma StartAdds(s: Store, expected: Option<Head>, start: Start)
    requires StartWrite(s, expected, start).Some?
    ensures Valid(s) && MayFollow(expected, start) ==>
              Valid(StartWrite(s, expected, start).value)
                && OneMoreStart(s, StartWrite(s, expected, start).value, start)
  {
    if Valid(s) && MayFollow(expected, start) {
      StartKeepsValid(s, expected, start);
    }
  }

  lemma ResultAdds(s: Store, start: Start, outcome: Outcome)
    requires ResultWrite(s, start, outcome).Some? && outcome.slot == start.slot && outcome.sequence == start.sequence
    ensures Valid(s) ==> Valid(ResultWrite(s, start, outcome).value)
                         && OneMoreResult(s, ResultWrite(s, start, outcome).value, outcome)
  {
    if Valid(s) {
      ResultKeepsValid(s, start, outcome);
    }
  }

  // ---- The publisher's own steps ----

  datatype Error = MalformedDurableState

  datatype Report = Report(sequence: nat, outcome: Outcome, submitted: bool, exhausted: bool)

  datatype Prepared = Submit(start: Start) | Existing(report: Report)

  datatype Result<T> = Ok(value: T) | Err(error: Error)

  /** What the next publication of a slot does: nothing more, or the attempt with this number. */
  function NextAttempt(head: Option<Head>): Option<nat> {
    match head
    case None => Some(1)
    case Some(Started(start)) => Some(start.sequence)
    case Some(Completed(outcome)) =>
      if Terminal(outcome.kind) || outcome.sequence >= MAX_ATTEMPTS then None else Some(outcome.sequence + 1)
  }

  /** The attempt that is due: the unfinished one itself, or a new one that starts now. */
  function DueStart(head: Option<Head>, slot: Slot, nowMs: nat): Start
    requires NextAttempt(head).Some?
  {
    match head
    case Some(Started(start)) => start
    case _ => Start(slot, NextAttempt(head).value, nowMs)
  }

  class DurableBlockPublisher {
    var store: Store

    constructor (durable: Store)
      ensures store == durable
    {
      store := durable;
    }

    /** Succeeds exactly if nobody moved the head, and then adds exactly one attempt; failure changes nothing. */
    method PersistAttemptStart(expected: Option<Head>, start: Start) returns (r: Result<()>)
      modifies this
      ensures r.Ok? <==> Get(old(store).heads, start.slot) == expected
      ensures r.Err? ==> store == old(store)
      ensures r.Ok? && Valid(old(store)) && MayFollow(expected, start) ==>
              Valid(store) && OneMoreStart(old(store), store, start)
      ensures store == if r.Ok? then StartWrite(old(store), expected, start).value else old(store)
    {
      if Get(store.heads, start.slot) != expected {
        return Err(MalformedDurableState);
      }
      StartAdds(store, expected, start);
      store := Store(store.heads[start.slot := Started(start)], store.starts[(start.slot, start.sequence) := start],
                     store.results);
      r := Ok(());
    }

    /**
     Succeeds exactly for the current unfinished attempt, and then adds exactly its
     result; failure changes nothing.
     */
    method PersistAttemptResult(start: Start, outcome: Outcome) returns (r: Result<()>)
      modifies this
      ensures r.Ok? <==> && outcome.slot == start.slot && outcome.sequence == start.sequence
                         && Get(old(store).heads, start.slot) == Some(Started(start))
      ensures r.Err? ==> store == old(store)
      ensures r.Ok? && Valid(old(store)) ==> Valid(store) && OneMoreResult(old(store), store, outcome)
      ensures store == if r.Ok? then ResultWrite(old(store), start, outcome).value else old(store)
    {
      if outcome.slot != start.slot || outcome.sequence != start.sequence {
        return Err(MalformedDurableState);
      }
      if Get(store.heads, start.slot) != Some(Started(start)) {
        return Err(MalformedDurableState);
      }
      ResultAdds(store, start, outcome);
      store := Store(store.heads[start.slot := Completed(outcome)], store.starts,
                     store.results[(start.slot, start.sequence) := outcome]);
      r := Ok(());
    }

    /** Loads, checks and, where an attempt is due, durably starts it; on a valid store nothing is ever malformed. */
    method PrepareTarget(slot: Slot, nowMs: nat) returns (r: Result<Prepared>)
      requires Valid(store)
      modifies this
      ensures Valid(store) && r.Ok?
      ensures match NextAttempt(Get(old(store).heads, slot))
              case None =>
                && store == old(store) && r.value.Existing?
                && old(store).heads[slot] == Completed(r.value.report.outcome) && !r.value.report.submitted
                && r.value.report.sequence == r.value.report.outcome.sequence
                && (r.value.report.exhausted <==> !Terminal(r.value.report.outcome.kind))
              case Some(n) =>
                && r.value.Submit? && r.value.start.slot == slot && r.value.start.sequence == n
                && r.value.start == DueStart(Get(old(store).heads, slot), slot, nowMs)
                && Get(store.heads, slot) == Some(Started(r.value.start))
                && Get(store.starts, (slot, n)) == Some(r.value.start)
      ensures forall other :: other != slot ==> SameSlot(old(store), store, other)
    {
      assert SlotValid(store, slot);
      if slot !in store.heads {
        var start := Start(slot, 1, nowMs);
        var persisted := PersistAttemptStart(None, start);
        StartKeepsValid(old(store), None, start);
        return Ok(Submit(start));
      }
      var head := store.heads[slot];
      if head.Sequence() == 0 || head.Sequence() > MAX_ATTEMPTS {
        return Err(MalformedDurableState);
      }
      match head {
        case Started(expected) =>
          if (slot, expected.sequence) !in store.starts || store.starts[(slot, expected.sequence)] != expected {
            return Err(MalformedDurableState);
          }
          return Ok(Submit(store.starts[(slot, expected.sequence)]));
        case Completed(expected) =>
          if (slot, expected.sequence) !in store.results || store.results[(slot, expected.sequence)] != expected {
            return Err(MalformedDurableState);
          }
          var outcome := store.results[(slot, expected.sequence)];
          if Terminal(outcome.kind) || outcome.sequence >= MAX_ATTEMPTS {
            return Ok(Existing(Report(outcome.sequence, outcome, false, !Terminal(outcome.kind)
                                      && outcome.sequence >= MAX_ATTEMPTS)));
          }
          var start := Start(slot, outcome.sequence + 1, nowMs);
          var persisted := PersistAttemptStart(Some(head), start);
          StartKeepsValid(old(store), Some(head), start);
          return Ok(Submit(start));
      }
    }

    method PrepareAll(slots: seq<Slot>, nowMs: nat) returns (prepared: seq<Prepared>)
      requires Valid(store) && Distinct(slots)
      modifies this
      ensures Valid(store) && |prepared| == |slots|
      ensures forall k :: 0 <= k < |slots| ==> Stands(old(store), store, slots[k], nowMs, prepared[k])
      ensures forall other :: other !in slots ==> SameSlot(old(store), store, other)
    {
      prepared := [];
      for i := 0 to |slots|
        invariant Valid(store) && |prepared| == i
        invariant forall k :: 0 <= k < i ==> Stands(old(store), store, slots[k], nowMs, prepared[k])
        invariant forall k :: i <= k < |slots| ==> SameSlot(old(store), store, slots[k])
        invariant forall other :: other !in slots ==> SameSlot(old(store), store, other)
      {
        ghost var before := store;
        assert SameSlot(old(store), before, slots[i]);
        var next := PrepareTarget(slots[i], nowMs);
        forall k | 0 <= k < i ensures Stands(old(store), store, slots[k], nowMs, prepared[k]) {
          StandsStable(old(store), before, store, slots[k], nowMs, prepared[k]);
        }
        forall k | i < k < |slots| ensures SameSlot(old(store), store, slots[k]) {
          SameSlotTransitive(old(store), before, store, slots[k]);
        }
        forall other | other !in slots ensures SameSlot(old(store), store, other) {
          SameSlotTransitive(old(store), before, store, other);
        }
        if next.value.Existing? {
          SameSlotTransitive(old(store), before, store, slots[i]);
        }
        prepared := prepared + [next.value];
      }
    }

    /**
     Every target is durably prepared before any is called; each due attempt is
     called once and its result recorded.
     */
    method Publish(slots: seq<Slot>, nowMs: nat, call: Start -> Outcome) returns (reports: seq<Report>)
      requires Valid(store) && Distinct(slots)
      requires forall start :: call(start).slot == start.slot && call(start).sequence == start.sequence
      modifies this
      ensures Valid(store) && |reports| == |slots|
      ensures forall i :: 0 <= i < |slots| ==> Published(old(store), store, slots[i], nowMs, call, reports[i])
      ensures forall other :: other !in slots ==> SameSlot(old(store), store, other)
    {
      var prepared := PrepareAll(slots, nowMs);
      reports := [];
      for i := 0 to |slots|
        invariant Valid(store) && |reports| == i
        invariant forall k :: i <= k < |slots| ==> Stands(old(store), store, slots[k], nowMs, prepared[k])
        invariant forall other :: other !in slots ==> SameSlot(old(store), store, other)
        invariant forall k :: 0 <= k < i ==> Published(old(store), store, slots[k], nowMs, call, reports[k])
      {
        ghost var before := store;
        var report := PublishOne(slots[i], prepared[i], nowMs, call, old(store));
        forall k | 0 <= k < |slots| && k != i ensures SameSlot(before, store, slots[k]) {
        }
        forall other | other !in slots ensures SameSlot(old(store), store, other) {
          SameSlotTransitive(old(store), before, store, other);
        }
        forall k | 0 <= k < i ensures Published(old(store), store, slots[k], nowMs, call, reports[k]) {
          PublishedStable(old(store), before, store, slots[k], nowMs, call, reports[k]);
        }
        forall k | i < k < |slots| ensures Stands(old(store), store, slots[k], nowMs, prepared[k]) {
          StandsStable(old(store), before, store, slots[k], nowMs, prepared[k]);
        }
        reports := reports + [report];
      }
    }

    method PublishOne(slot: Slot, prepared: Prepared, ghost nowMs: nat, call: Start -> Outcome, ghost origin: Store)
      returns (report: Report)
      requires Valid(store) && Stands(origin, store, slot, nowMs, prepared)
      requires forall start :: call(start).slot == start.slot && call(start).sequence == start.sequence
      modifies this
      ensures Valid(store) && Published(origin, store, slot, nowMs, call, report)
      ensures forall other :: other != slot ==> SameSlot(old(store), store, other)
    {
      match prepared {
        case Existing(existing) => report := existing;
        case Submit(start) =>
          var outcome := call(start);
          var persisted := PersistAttemptResult(start, outcome);
          ResultKeepsValid(old(store), start, outcome);
          report := Report(start.sequence, outcome, true, false);
      }
    }
  }

  predicate Success(report: Report) { report.outcome.kind == Accepted || report.outcome.kind == AlreadyKnown }

  /** Earlier in the order of answers: faster, or as fast and of an earlier target. */
  predicate Faster(reports: seq<Report>, i: nat, j: nat)
    requires i < |reports| && j < |reports|
  {
    || reports[i].outcome.elapsedUs < reports[j].outcome.elapsedUs
    || (reports[i].outcome.elapsedUs == reports[j].outcome.elapsedUs && i <= j)
  }

  /**
   The target named in the report, targets being in ascending order: the first that had already accepted, or else the
   fastest to accept now.
   */
  method FirstAccepted(reports: seq<Report>) returns (first: Option<nat>)
    ensures first.None? <==> forall i :: 0 <= i < |reports| ==> !Success(reports[i])
    ensures first.Some? ==> first.value < |reports| && Success(reports[first.value])
    ensures first.Some? && !reports[first.value].submitted ==>
            forall i :: 0 <= i < first.value && Success(reports[i]) ==> reports[i].submitted
    ensures first.Some? && reports[first.value].submitted ==>
            forall i :: 0 <= i < |reports| && Success(reports[i]) ==>
              reports[i].submitted && Faster(reports, first.value, i)
  {
    first := None;
    for i := 0 to |reports|
      invariant first.None? <==> forall k :: 0 <= k < i ==> !Success(reports[k])
      invariant first.Some? ==> first.value < i && Success(reports[first.value]) && reports[first.value].submitted
      invariant first.Some? ==> forall k :: 0 <= k < i && Success(reports[k]) ==> Faster(reports, first.value, k)
      invariant forall k :: 0 <= k < i && Success(reports[k]) ==> reports[k].submitted
    {
      if Success(reports[i]) {
        if !reports[i].submitted {
          return Some(i);
        }
        if first.None? || reports[i].outcome.elapsedUs < reports[first.value].outcome.elapsedUs {
          first := Some(i);
        }
      }
    }
  }

  predicate Distinct(slots: seq<Slot>) { forall i, j :: 0 <= i < j < |slots| ==> slots[i] != slots[j] }

  lemma SameSlotTransitive(a: Store, b: Store, c: Store, slot: Slot)
    requires SameSlot(a, b, slot) && SameSlot(b, c, slot)
    ensures SameSlot(a, c, slot)
  {
    forall k: nat
      ensures Get(a.starts, (slot, k)) == Get(c.starts, (slot, k))
              && Get(a.results, (slot, k)) == Get(c.results, (slot, k))
    {
      assert Get(a.starts, (slot, k)) == Get(b.starts, (slot, k))
             && Get(a.results, (slot, k)) == Get(b.results, (slot, k));
    }
  }

  lemma StandsStable(origin: Store, s: Store, t: Store, slot: Slot, nowMs: nat, prepared: Prepared)
    requires Stands(origin, s, slot, nowMs, prepared) && SameSlot(s, t, slot)
    ensures Stands(origin, t, slot, nowMs, prepared)
  {
    if NextAttempt(Get(origin.heads, slot)).None? {
      SameSlotTransitive(origin, s, t, slot);
    }
  }

  lemma PublishedStable(
      origin: Store, s: Store, t: Store, slot: Slot, nowMs: nat, call: Start -> Outcome, report: Report)
    requires Published(origin, s, slot, nowMs, call, report) && SameSlot(s, t, slot)
    ensures Published(origin, t, slot, nowMs, call, report)
  {
    if NextAttempt(Get(origin.heads, slot)).None? {
      SameSlotTransitive(origin, s, t, slot);
    }
  }

  /** A prepared target: its due attempt is started in the store, or nothing is due. */
  ghost predicate Stands(before: Store, now: Store, slot: Slot, nowMs: nat, prepared: Prepared) {
    var head := Get(before.heads, slot);
    match NextAttempt(head)
    case None =>
      SameSlot(before, now, slot) && prepared.Existing? && Settled(head, prepared.report)
    case Some(n) =>
      && prepared == Submit(DueStart(head, slot, nowMs)) && prepared.start.slot == slot && prepared.start.sequence == n
      && Get(now.heads, slot) == Some(Started(prepared.start)) && Get(now.starts, (slot, n)) == Some(prepared.start)
  }

  /** The report of a finished slot repeats its last result. */
  predicate Settled(head: Option<Head>, report: Report) {
    && head == Some(Completed(report.outcome)) && report.sequence == report.outcome.sequence && !report.submitted
    && (report.exhausted <==> !Terminal(report.outcome.kind))
  }

  /**
   What publishing leaves behind for one slot: the old result untouched, or the due attempt with the answer the target
   gave to it, which is stored and reported as it is.
   */
  ghost predicate Published(
      before: Store, after: Store, slot: Slot, nowMs: nat, call: Start -> Outcome, report: Report) {
    var head := Get(before.heads, slot);
    match NextAttempt(head)
    case None => SameSlot(before, after, slot) && Settled(head, report)
    case Some(n) =>
      var start := DueStart(head, slot, nowMs);
      && report == Report(n, call(start), true, false)
      && Get(after.starts, (slot, n)) == Some(start) && Get(after.results, (slot, n)) == Some(call(start))
      && Get(after.heads, slot) == Some(Completed(call(start)))
  }

  // ---- Any number of publishers, any order, any crash ----

  /** One publish call's work on one target. */
  datatype Worker = Worker(call: nat, slot: Slot)

  datatype Local = Looked(head: Option<Head>) | Ready(start: Start) | Sent(start: Start)

  /** The durable store, the calls in progress, and what has been submitted and written so far. */
  datatype World = World(store: Store, workers: map<Worker, Local>, submitted: seq<Start>, written: seq<(Slot, nat)>)

  datatype Action =
    | Look(w: Worker)
    | Begin(w: Worker, nowMs: nat)
    | Resume(w: Worker)
    | Finish(w: Worker)
    | Send(w: Worker)
    | Commit(w: Worker, outcome: Outcome)
    | Crash(calls: set<nat>)

  predicate LookNext(world: World, w: Worker, after: World) {
    w !in world.workers && after == world.(workers := world.workers[w := Looked(Get(world.store.heads, w.slot))])
  }

  /** A first or a further attempt: the write succeeds only if the head has not moved since it was read. */
  predicate BeginNext(world: World, w: Worker, nowMs: nat, after: World) {
    && w in world.workers && world.workers[w].Looked?
    && var head := world.workers[w].head;
       && (head.Some? ==> head.value.Completed? && LoadedResult(world.store, head.value.outcome))
       && NextAttempt(head).Some?
       && var start := Start(w.slot, NextAttempt(head).value, nowMs);
          match StartWrite(world.store, head, start)
          case None => after == world.(workers := world.workers - {w})
          case Some(store) => after == world.(store := store, workers := world.workers[w := Ready(start)])
  }

  predicate ResumeNext(world: World, w: Worker, after: World) {
    && w in world.workers && world.workers[w].Looked?
    && world.workers[w].head.Some? && world.workers[w].head.value.Started?
    && var start := world.workers[w].head.value.start;
       && Get(world.store.starts, (w.slot, start.sequence)) == Some(start)
       && after == world.(workers := world.workers[w := Ready(start)])
  }

  predicate FinishNext(world: World, w: Worker, after: World) {
    && w in world.workers && world.workers[w].Looked? && NextAttempt(world.workers[w].head).None?
    && after == world.(workers := world.workers - {w})
  }

  /** The target is called between the two writes. */
  predicate SendNext(world: World, w: Worker, after: World) {
    && w in world.workers && world.workers[w].Ready?
    && var start := world.workers[w].start;
       after == world.(workers := world.workers[w := Sent(start)], submitted := world.submitted + [start])
  }

  predicate CommitNext(world: World, w: Worker, outcome: Outcome, after: World) {
    && w in world.workers && world.workers[w].Sent?
    && var start := world.workers[w].start;
       && outcome.slot == start.slot && outcome.sequence == start.sequence
       && match ResultWrite(world.store, start, outcome)
          case None => after == world.(workers := world.workers - {w})
          case Some(store) =>
            after == world.(store := store, workers := world.workers - {w},
                            written := world.written + [(start.slot, start.sequence)])
  }

  /** Any calls may stop at any point; what they wrote stays. */
  predicate CrashNext(world: World, calls: set<nat>, after: World) {
    after == world.(workers := map w | w in world.workers && w.call !in calls :: world.workers[w])
  }

  predicate Next(world: World, action: Action, after: World) {
    match action
    case Look(w) => LookNext(world, w, after)
    case Begin(w, nowMs) => BeginNext(world, w, nowMs, after)
    case Resume(w) => ResumeNext(world, w, after)
    case Finish(w) => FinishNext(world, w, after)
    case Send(w) => SendNext(world, w, after)
    case Commit(w, outcome) => CommitNext(world, w, outcome, after)
    case Crash(calls) => CrashNext(world, calls, after)
  }

  predicate LoadedResult(s: Store, outcome: Outcome) {
    Get(s.results, (outcome.slot, outcome.sequence)) == Some(outcome)
  }

  predicate Fresh(world: World) { world == World(Store(map[], map[], map[]), map[], [], []) }

  /** A run: worlds joined by actions, starting with nothing. */
  predicate Run(worlds: seq<World>, actions: seq<Action>) {
    && |worlds| == |actions| + 1 && Fresh(worlds[0])
    && forall i :: 0 <= i < |actions| ==> Next(worlds[i], actions[i], worlds[i + 1])
  }

  // ---- What holds in every run ----

  /** Results are written once each, and exactly the results in the store were written. */
  ghost predicate WrittenOnce(world: World) {
    && (forall i, j :: 0 <= i < j < |world.written| ==> world.written[i] != world.written[j])
    && (forall key :: key in world.store.results <==> key in world.written)
  }

  /** What a worker holds was in the store, and is about its own slot. */
  predicate Holds(s: Store, w: Worker, local: Local) {
    match local
    case Looked(head) => head.Some? ==> (if head.value.Started? then head.value.start.slot == w.slot
                                         else head.value.outcome.slot == w.slot)
    case Ready(start) => start.slot == w.slot && Get(s.starts, (w.slot, start.sequence)) == Some(start)
    case Sent(start) => start.slot == w.slot && Get(s.starts, (w.slot, start.sequence)) == Some(start)
  }

  ghost predicate Inv(world: World) {
    && Valid(world.store) && WrittenOnce(world)
    && (forall w :: w in world.workers ==> Holds(world.store, w, world.workers[w]))
    && (forall i :: 0 <= i < |world.submitted| ==> 1 <= world.submitted[i].sequence <= MAX_ATTEMPTS)
  }

  lemma HeadIsOwn(s: Store, slot: Slot)
    requires Valid(s) && slot in s.heads
    ensures var head := s.heads[slot]; if head.Started? then head.start.slot == slot else head.outcome.slot == slot
  {
    assert SlotValid(s, slot);
    var n := s.heads[slot].Sequence();
    assert (slot, n) in s.starts;
  }

  lemma NextKeepsInv(world: World, action: Action, after: World)
    requires Inv(world) && Next(world, action, after)
    ensures Inv(after)
  {
    match action {
      case Look(w) =>
        if w.slot in world.store.heads {
          HeadIsOwn(world.store, w.slot);
        }
      case Begin(w, nowMs) => BeginKeepsInv(world, w, nowMs, after);
      case Commit(w, outcome) => CommitKeepsInv(world, w, outcome, after);
      case Send(w) => StartBound(world.store, world.workers[w].start);
      case Resume(w) =>
      case Finish(w) =>
      case Crash(_) =>
    }
  }

  lemma StartBound(s: Store, start: Start)
    requires Valid(s) && Get(s.starts, (start.slot, start.sequence)) == Some(start)
    ensures 1 <= start.sequence <= MAX_ATTEMPTS
  {
    assert SlotValid(s, start.slot);
  }

  lemma BeginKeepsInv(world: World, w: Worker, nowMs: nat, after: World)
    requires Inv(world) && BeginNext(world, w, nowMs, after)
    ensures Inv(after)
  {
    var head := world.workers[w].head;
    var start := Start(w.slot, NextAttempt(head).value, nowMs);
    assert Holds(world.store, w, world.workers[w]);
    if StartWrite(world.store, head, start).Some? {
      StartKeepsValid(world.store, head, start);
      forall v | v in after.workers ensures Holds(after.store, v, after.workers[v]) {
        if v != w {
          assert Holds(world.store, v, world.workers[v]);
        }
      }
    }
  }

  lemma CommitKeepsInv(world: World, w: Worker, outcome: Outcome, after: World)
    requires Inv(world) && CommitNext(world, w, outcome, after)
    ensures Inv(after)
  {
    var start := world.workers[w].start;
    if ResultWrite(world.store, start, outcome).Some? {
      ResultKeepsValid(world.store, start, outcome);
      assert (start.slot, start.sequence) !in world.written;
      forall v | v in after.workers ensures Holds(after.store, v, after.workers[v]) {
        assert Holds(world.store, v, world.workers[v]);
      }
    }
  }

  /**
   In every run, whatever the interleaving and the crashes: attempts are 1 to n
   with n at most 16, all results before the last are retryable, and no result
   is ever written twice.
   */
  lemma {:induction false} RunKeepsInv(worlds: seq<World>, actions: seq<Action>, k: nat)
    requires Run(worlds, actions) && k < |worlds|
    ensures Inv(worlds[k])
  {
    if k == 0 {
      FreshInv(worlds[0]);
    } else {
      RunKeepsInv(worlds, actions, k - 1);
      assert Next(worlds[k - 1], actions[k - 1], worlds[k - 1 + 1]);
      NextKeepsInv(worlds[k - 1], actions[k - 1], worlds[k]);
    }
  }

  lemma FreshInv(world: World)
    requires Fresh(world)
    ensures Inv(world)
  {
    forall slot ensures SlotValid(world.store, slot) {
    }
  }

  // ---- Publish calls that do not overlap ----

  /** At most one call works on a slot. */
  predicate Exclusive(world: World) {
    forall v, w :: v in world.workers && w in world.workers && v.slot == w.slot ==> v == w
  }

  /** Then what a worker holds is still what the store says. */
  predicate Current(s: Store, w: Worker, local: Local) {
    match local
    case Looked(head) => Get(s.heads, w.slot) == head
    case Ready(start) => Get(s.heads, w.slot) == Some(Started(start))
    case Sent(start) => Get(s.heads, w.slot) == Some(Started(start))
  }

  predicate AllCurrent(world: World) { forall w :: w in world.workers ==> Current(world.store, w, world.workers[w]) }

  lemma NextKeepsCurrent(world: World, action: Action, after: World)
    requires Next(world, action, after) && Inv(world) && Exclusive(world) && AllCurrent(world)
    ensures AllCurrent(after)
  {
    forall v | v in after.workers ensures Current(after.store, v, after.workers[v]) {
      if v in world.workers {
        assert Holds(world.store, v, world.workers[v]) && Current(world.store, v, world.workers[v]);
      }
      if action.Commit? {
        assert Holds(world.store, action.w, world.workers[action.w]);
      }
    }
  }

  predicate NonOverlapping(worlds: seq<World>) { forall i :: 0 <= i < |worlds| ==> Exclusive(worlds[i]) }

  lemma {:induction false} RunKeepsCurrent(worlds: seq<World>, actions: seq<Action>, k: nat)
    requires Run(worlds, actions) && NonOverlapping(worlds) && k < |worlds|
    ensures AllCurrent(worlds[k])
  {
    if k > 0 {
      RunKeepsCurrent(worlds, actions, k - 1);
      RunKeepsInv(worlds, actions, k - 1);
      assert Next(worlds[k - 1], actions[k - 1], worlds[k - 1 + 1]);
      NextKeepsCurrent(worlds[k - 1], actions[k - 1], worlds[k]);
    }
  }

  lemma NextHead(world: World, action: Action, after: World, slot: Slot)
    requires Next(world, action, after) && Inv(world)
    ensures forall key :: key in world.store.results ==> key in after.store.results
    ensures Get(world.store.heads, slot).Some? && NextAttempt(Get(world.store.heads, slot)).None? ==>
              Get(after.store.heads, slot) == Get(world.store.heads, slot)
    ensures Get(world.store.heads, slot).Some? && world.store.heads[slot].Started? ==>
              || Get(after.store.heads, slot) == Get(world.store.heads, slot)
              || (slot, world.store.heads[slot].start.sequence) in after.store.results
  {
    if action.Begin? || action.Commit? {
      assert Holds(world.store, action.w, world.workers[action.w]);
    }
  }

  lemma RunHead(worlds: seq<World>, actions: seq<Action>, k: nat, slot: Slot)
    requires Run(worlds, actions) && k < |actions|
    ensures forall key :: key in worlds[k].store.results ==> key in worlds[k + 1].store.results
    ensures Get(worlds[k].store.heads, slot).Some? && NextAttempt(Get(worlds[k].store.heads, slot)).None? ==>
              Get(worlds[k + 1].store.heads, slot) == Get(worlds[k].store.heads, slot)
    ensures Get(worlds[k].store.heads, slot).Some? && worlds[k].store.heads[slot].Started? ==>
              || Get(worlds[k + 1].store.heads, slot) == Get(worlds[k].store.heads, slot)
              || (slot, worlds[k].store.heads[slot].start.sequence) in worlds[k + 1].store.results
  {
    RunKeepsInv(worlds, actions, k);
    assert Next(worlds[k], actions[k], worlds[k + 1]);
    NextHead(worlds[k], actions[k], worlds[k + 1], slot);
  }

  /** A finished target stays finished, in every run. */
  lemma {:induction false} TerminalForever(worlds: seq<World>, actions: seq<Action>, slot: Slot, i: nat, j: nat)
    requires Run(worlds, actions) && i <= j < |worlds|
    requires slot in worlds[i].store.heads && NextAttempt(Some(worlds[i].store.heads[slot])).None?
    ensures Get(worlds[j].store.heads, slot) == Some(worlds[i].store.heads[slot])
    decreases j
  {
    if i < j {
      TerminalForever(worlds, actions, slot, i, j - 1);
      RunHead(worlds, actions, j - 1, slot);
    }
  }

  /** An attempt stays the current one until its result is recorded, in every run. */
  lemma {:induction false} StartedUntilResult(worlds: seq<World>, actions: seq<Action>, start: Start, i: nat, j: nat)
    requires Run(worlds, actions) && i <= j < |worlds|
    requires Get(worlds[i].store.heads, start.slot) == Some(Started(start))
    ensures Get(worlds[j].store.heads, start.slot) == Some(Started(start))
            || (start.slot, start.sequence) in worlds[j].store.results
    decreases j
  {
    if i < j {
      StartedUntilResult(worlds, actions, start, i, j - 1);
      RunHead(worlds, actions, j - 1, start.slot);
    }
  }

  /** A finished target is never submitted again when publish calls do not overlap. */
  lemma NeverResubmitted(worlds: seq<World>, actions: seq<Action>, slot: Slot, i: nat, j: nat)
    requires Run(worlds, actions) && NonOverlapping(worlds) && i <= j < |actions|
    requires slot in worlds[i].store.heads && NextAttempt(Some(worlds[i].store.heads[slot])).None?
    ensures !(actions[j].Send? && actions[j].w.slot == slot)
  {
    if actions[j].Send? && actions[j].w.slot == slot {
      SendIsCurrent(worlds, actions, j);
      TerminalForever(worlds, actions, slot, i, j);
    }
  }

  lemma SendIsCurrent(worlds: seq<World>, actions: seq<Action>, j: nat)
    requires Run(worlds, actions) && NonOverlapping(worlds) && j < |actions| && actions[j].Send?
    ensures var slot := actions[j].w.slot;
            && slot in worlds[j].store.heads && worlds[j].store.heads[slot].Started?
            && worlds[j + 1].submitted == worlds[j].submitted + [worlds[j].store.heads[slot].start]
  {
    RunKeepsCurrent(worlds, actions, j);
    assert Next(worlds[j], actions[j], worlds[j + 1]);
    assert Current(worlds[j].store, actions[j].w, worlds[j].workers[actions[j].w]);
  }

  /** An unfinished attempt is submitted again under its own number when publish calls do not overlap. */
  lemma ResubmittedWithSameNumber(worlds: seq<World>, actions: seq<Action>, start: Start, i: nat, j: nat)
    requires Run(worlds, actions) && NonOverlapping(worlds) && i <= j < |actions|
    requires Get(worlds[i].store.heads, start.slot) == Some(Started(start))
    requires actions[j].Send? && actions[j].w.slot == start.slot
             && (start.slot, start.sequence) !in worlds[j].store.results
    ensures worlds[j + 1].submitted == worlds[j].submitted + [start]
  {
    StartedUntilResult(worlds, actions, start, i, j);
    SendIsCurrent(worlds, actions, j);
  }
}
