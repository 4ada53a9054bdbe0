/**
 The mining gateway (crates/meshmine-gateway/src/lib.rs). Every method keeps
 the memory equal to what reopening the store would build, and records the
 atomic writes it makes, so that a crash between any two of them leaves a
 store of the run.
 */
module Gateway {
  import opened Wrappers
  import opened Arith
  import opened Bytes
  import opened GatewayStore
  import opened GatewayMemory
  import opened GatewayRecords
  import opened GatewaySteps
  import opened GatewayRetire
  import GatewayRun
  import GatewayOpen
  import CaptureTarget

  datatype PreviousJob = PreviousJob(jobId: Id, creditCutoffMs: nat, submissionEndMs: nat)

  function HandoverOf(transition: Option<PreviousJob>): Option<Transition> {
    if transition.None? then None else Some(Transition(transition.value.creditCutoffMs,
                                                       transition.value.submissionEndMs))
  }

  /** The named predecessor keeps its job and enters the grace period named; no other job changes. */
  predicate HandedOver(before: map<Id, Entry>, after: map<Id, Entry>, transition: Option<PreviousJob>, issued: Id) {
    && after.Keys == before.Keys + {issued}
    && (forall id :: id in before && id != issued && (transition.Some? ==> id != transition.value.jobId) ==>
          after[id] == before[id])
    && (transition.Some? ==>
          var p := transition.value;
          && p.jobId in before && p.jobId in after
          && after[p.jobId] == Entry(before[p.jobId].job, Grace(p.creditCutoffMs, p.submissionEndMs)))
  }

  datatype Submission = Submission(username: Text, jobId: Id, extraNonce2: seq<Byte>, ntime: nat, nonce: nat)

  predicate WellNamed(username: Text) { 0 < |username.bytes| <= MAX_USERNAME }

  /** Shares are still taken for the job. */
  predicate InWindow(entry: Entry, receivedMs: nat) {
    match entry.state
    case Active => receivedMs <= entry.job.submissionEndMs
    case Grace(_, end) => receivedMs <= end
    case Closed => false
  }

  class Gateway {
    const enforce: bool
    const shareHash: ShareHash
    ghost const rules: Rules

    var store: Store

    var memory: Memory

    /** The stores passed through since opening, and the writes between them. */
    ghost var trail: seq<Store>
    ghost var writes: seq<Write>

    ghost predicate Logged()
      reads this
    {
      trail != [] && GatewayRun.Run(trail, writes, rules) && trail[|trail| - 1] == store
    }

    ghost predicate Valid()
      reads this
    {
      Consistent(store, memory, rules) && Logged()
    }

    /** The rules are those of this mode and header hash. */
    ghost predicate Configured()
    {
      Governs(rules, enforce, shareHash)
    }

    /** The gateway over a recovered store; a new store has been marked with the format. */
    constructor (s: Store, m: Memory, enforce: bool, shareHash: ShareHash, ghost rules: Rules)
      requires Recoverable(s, rules) && Mirrors(s, m, rules.key) && Governs(rules, enforce, shareHash)
      ensures this.enforce == enforce && this.shareHash == shareHash && this.rules == rules && Configured()
      ensures memory == m && store == s.(format := true) && Logged() && trail[0] == s
      ensures writes == if s.format then [] else [WriteFormat]
      ensures Sound(s, rules) ==> Valid()
    {
      this.enforce, this.shareHash, this.rules := enforce, shareHash, rules;
      store, memory, trail, writes := s, m, [s], [];
      new;
      StartRun(s, rules);
      if !s.format {
        Put(WriteFormat);
      }
      OpenedConsistent(s, m, rules);
    }

    /** One atomic write to the store. */
    method Put(w: Write)
      requires Enabled(store, w, rules) && Logged()
      modifies this`store, this`trail, this`writes
      ensures store == Apply(old(store), w) && Logged()
      ensures trail == old(trail) + [store] && writes == old(writes) + [w]
    {
      ghost var before := store;
      store := Apply(store, w);
      ExtendRun(trail, writes, before, w, store, rules);
      trail := trail + [store];
      writes := writes + [w];
    }

    // ---- Jobs ----

    /** The same job, still the current one. */
    predicate Repeats(request: Job, expected: Option<nat>)
      reads this
    {
      && request.id in memory.jobs && memory.current == Some(request.id)
      && var existing := memory.jobs[request.id];
         && existing == Entry(request.(sequence := existing.job.sequence), Active)
         && (expected.Some? ==> expected.value == existing.job.sequence)
    }

    /** The handover of the current job, if there is one, is named exactly and within its windows. */
    predicate HandsOver(request: Job, transition: Option<PreviousJob>)
      reads this
    {
      match memory.current
      case None => transition.None?
      case Some(id) =>
        && transition.Some? && transition.value.jobId == id && id in memory.jobs && memory.jobs[id].state.Active?
        && var previous := memory.jobs[id].job;
           && previous.issuedMs <= transition.value.creditCutoffMs <= request.issuedMs
           && transition.value.creditCutoffMs <= transition.value.submissionEndMs <= previous.submissionEndMs
    }

    predicate AdmitsNew(request: Job, transition: Option<PreviousJob>, expected: Option<nat>)
      reads this
    {
      && request.id !in memory.jobs && request.id !in store.retired && |memory.jobs| < MAX_ASSIGNMENTS
      && HandsOver(request, transition) && Next(store.next) + 1 < U64_LIMIT
      && (expected.Some? ==> expected.value == Next(store.next))
    }

    method CheckIssue(request: Job, transition: Option<PreviousJob>, expected: Option<nat>)
      returns (r: Result<Option<nat>>)
      requires Valid() && TargetsSized(request)
      ensures r.Ok? && r.value.Some? <==>
              request.sequence == 0 && ValidJob(request, enforce) && Repeats(request, expected)
      ensures r.Ok? && r.value.Some? ==> r.value.value == memory.jobs[request.id].job.sequence
      ensures r.Ok? && r.value.None? <==>
              request.sequence == 0 && ValidJob(request, enforce) && AdmitsNew(request, transition, expected)
      ensures r != Err(InvalidDurableState)
    {
      if request.sequence != 0 {
        return Err(AssignmentConflict);
      }
      var checked := ValidateJob(request, enforce);
      if checked.Err? {
        return Err(checked.error);
      }
      if request.id in memory.jobs {
        var existing := memory.jobs[request.id];
        if expected.Some? && expected.value != existing.job.sequence {
          return Err(AssignmentAuthorizationMismatch);
        }
        if request.(sequence := existing.job.sequence) == existing.job && existing.state.Active?
           && memory.current == Some(request.id) {
          return Ok(Some(existing.job.sequence));
        }
        return Err(AssignmentConflict);
      }
      if request.id in store.retired {
        return Err(InvalidJobId);
      }
      if |memory.jobs| >= MAX_ASSIGNMENTS {
        return Err(AssignmentCapacity);
      }
      CurrentFacts(store, memory, rules);
      match memory.current {
        case None =>
          if transition.Some? {
            return Err(InvalidJobTiming);
          }
        case Some(currentId) =>
          if transition.None? {
            return Err(ActiveJobExists);
          }
          if transition.value.jobId != currentId {
            return Err(InvalidJobTiming);
          }
          var previous := memory.jobs[currentId];
          if !previous.state.Active? || transition.value.creditCutoffMs < previous.job.issuedMs
             || request.issuedMs < transition.value.creditCutoffMs
             || transition.value.submissionEndMs < transition.value.creditCutoffMs
             || transition.value.submissionEndMs > previous.job.submissionEndMs
          {
            return Err(InvalidJobTiming);
          }
      }
      var q := Next(store.next);
      if q + 1 >= U64_LIMIT {
        return Err(SequenceExhausted);
      }
      if expected.Some? && expected.value != q {
        return Err(AssignmentAuthorizationMismatch);
      }
      r := Ok(None);
    }

    /** Makes a job the current one, moving the job it replaces to its grace period in the same write. */
    method IssueJob(request: Job, transition: Option<PreviousJob>, expected: Option<nat>) returns (r: Result<nat>)
      requires Valid() && Configured() && TargetsSized(request)
      modifies this
      ensures Valid() && r != Err(InvalidDurableState)
      ensures r.Ok? <==> request.sequence == 0 && ValidJob(request, enforce)
                         && (old(Repeats(request, expected)) || old(AdmitsNew(request, transition, expected)))
      ensures r.Err? || old(Repeats(request, expected)) ==>
                store == old(store) && memory == old(memory) && writes == old(writes) && trail == old(trail)
      ensures r.Ok? ==> memory.current == Some(request.id) && request.id in memory.jobs
                        && memory.jobs[request.id] == Entry(request.(sequence := r.value), Active)
      ensures r.Ok? && !old(Repeats(request, expected)) ==>
                && r.value == Next(old(store).next) && old(trail) <= trail
                && writes == old(writes) + [Issue(request.(sequence := r.value), HandoverOf(transition))]
                && HandedOver(old(memory.jobs), memory.jobs, transition, request.id)
    {
      var checked := CheckIssue(request, transition, expected);
      if checked.Err? {
        return Err(checked.error);
      }
      if checked.value.Some? {
        return Ok(checked.value.value);
      }
      IssueHands(memory, transition, request.(sequence := Next(store.next)));
      IssueNew(request, transition, expected);
      r := Ok(memory.jobs[request.id].job.sequence);
    }

    /** The same for a caller who only follows the writes. */
    method IssueLogged(request: Job, transition: Option<PreviousJob>, expected: Option<nat>) returns (r: Result<nat>)
      requires Valid() && Configured() && TargetsSized(request)
      modifies this
      ensures Valid() && old(trail) <= trail && old(writes) <= writes
      ensures forall k :: |old(writes)| <= k < |writes| ==> writes[k].Issue?
    {
      r := IssueJob(request, transition, expected);
    }

    method IssueNew(request: Job, transition: Option<PreviousJob>, ghost expected: Option<nat>)
      requires Valid() && Configured() && request.sequence == 0 && ValidJob(request, enforce)
               && AdmitsNew(request, transition, expected)
      modifies this
      ensures Valid() && memory.current == Some(request.id) && request.id in memory.jobs
      ensures memory.jobs[request.id] == Entry(request.(sequence := Next(old(store).next)), Active)
      ensures writes == old(writes) + [Issue(request.(sequence := Next(old(store).next)), HandoverOf(transition))]
      ensures old(trail) <= trail
      ensures memory.jobs == HandedEntries(old(memory), HandoverOf(transition))
                               [request.id := Entry(request.(sequence := Next(old(store).next)), Active)]
    {
      CurrentFacts(store, memory, rules);
      var q, handover := Next(store.next), HandoverOf(transition);
      var job := request.(sequence := q);
      SequenceIsFree(request, q, enforce);
      IssueAllowed(store, memory, rules, job, handover);
      IssueStep(store, memory, rules, job, handover);
      var entries := HandedEntries(memory, handover);
      Put(Issue(job, handover));
      memory := memory.(jobs := entries[job.id := Entry(job, Active)], current := Some(job.id));
    }

    method CancelJob(id: Id, cutoff: nat, end: nat) returns (r: Result<()>)
      requires Valid()
      modifies this
      ensures Valid() && r != Err(InvalidDurableState)
      ensures r.Err? ==> store == old(store) && memory == old(memory)
      ensures r.Ok? <==>
              && id in old(memory.jobs) && var entry := old(memory.jobs)[id];
              && entry.job.issuedMs <= cutoff <= end <= entry.job.submissionEndMs
                 && (entry.state.Active? || entry.state == Grace(cutoff, end))
      ensures r.Ok? ==> id in memory.jobs && memory.jobs[id] == Entry(old(memory.jobs)[id].job, Grace(cutoff, end))
      ensures old(trail) <= trail
      ensures || (store == old(store) && memory == old(memory) && writes == old(writes))
              || (id in old(memory.jobs) && writes ==
                  old(writes) + [Cancel(old(memory.jobs)[id].job.sequence, cutoff, end)])
    {
      if id !in memory.jobs {
        return Err(StaleJob);
      }
      var entry := memory.jobs[id];
      var q := entry.job.sequence;
      JobFacts(store, memory, rules, id);
      if cutoff < entry.job.issuedMs || end < cutoff || end > entry.job.submissionEndMs {
        return Err(InvalidJobTiming);
      }
      match entry.state {
        case Active =>
          if memory.current != Some(id) || store.head != Some(q) {
            return Err(InvalidDurableState);
          }
        case Grace(c, e) =>
          if c != cutoff || e != end {
            return Err(InvalidJobTiming);
          }
          if store.states[q] != Grace(cutoff, end) {
            return Err(InvalidDurableState);
          }
          return Ok(());
        case Closed => return Err(StaleJob);
      }
      CancelStep(store, memory, rules, id, cutoff, end);
      Put(Cancel(q, cutoff, end));
      memory := memory.(jobs := memory.jobs[id := Entry(entry.job, Grace(cutoff, end))], current := None);
      r := Ok(());
    }

    /** Closes exactly the expired jobs, one atomic write each, and then makes one retirement pass. */
    method CloseExpired(nowMs: nat) returns (ghost taken: set<Id>)
      requires Valid()
      modifies this
      ensures Valid() && old(trail) <= trail && Upkeep(old(writes), writes)
      ensures PassDone(old(memory).(jobs := Swept(old(memory.jobs), nowMs)), memory, taken)
    {
      Sweep(nowMs);
      ghost var mid, made := memory, writes;
      taken := RetireClosedJobs();
      UpkeepMore(old(writes), made, writes);
      PassFields(mid, old(memory).(jobs := Swept(old(memory.jobs), nowMs)), memory, taken);
    }

    method Sweep(nowMs: nat)
      requires Valid()
      modifies this
      ensures Valid() && old(trail) <= trail && Upkeep(old(writes), writes)
      ensures memory == old(memory).(jobs := Swept(old(memory.jobs), nowMs), current := memory.current)
    {
      var expired := set id | id in memory.jobs && Expired(memory.jobs[id], nowMs);
      var todo := expired;
      SweepStart(memory.jobs, nowMs, expired);
      while todo != {}
        invariant Valid() && old(trail) <= trail && Upkeep(old(writes), writes)
        invariant memory == old(memory).(jobs := memory.jobs, current := memory.current)
        invariant todo <= expired && SweptFrom(old(memory.jobs), memory.jobs, nowMs, todo)
        decreases |todo|
      {
        var id :| id in todo;
        ghost var jobs, made := memory.jobs, writes;
        SweepOne(old(memory.jobs), jobs, nowMs, todo, id);
        CloseOne(id);
        UpkeepOne(old(writes), made, writes[|made|]);
        todo := todo - {id};
      }
      SweepEnd(old(memory.jobs), memory.jobs, nowMs);
    }

    method CloseOne(id: Id)
      requires Valid() && id in memory.jobs && !memory.jobs[id].state.Closed?
      modifies this
      ensures Valid() && old(trail) <= trail && writes == old(writes) + [Close(old(memory.jobs)[id].job.sequence)]
      ensures memory == old(memory).(jobs := old(memory.jobs)[id := Entry(old(memory.jobs)[id].job, Closed)],
                                     current := memory.current)
    {
      CloseStep(store, memory, rules, id);
      Put(Close(memory.jobs[id].job.sequence));
      memory := memory.(jobs := memory.jobs[id := Entry(memory.jobs[id].job, Closed)],
                        current := if memory.current == Some(id) then None else memory.current);
    }

    /** Takes up the idle jobs with the lowest numbers, at most a pass full, one step each. */
    method RetireClosedJobs() returns (ghost taken: set<Id>)
      requires Valid()
      modifies this
      ensures Valid() && old(trail) <= trail && Upkeep(old(writes), writes)
      ensures PassDone(old(memory), memory, taken)
    {
      var candidates, passes := IdleJobs(memory.jobs, memory.pending), 0;
      taken := {};
      PassStart(memory);
      SequencesDistinct(store, memory, rules);
      while candidates != {} && passes < MAX_RETIREMENTS_PER_PASS
        invariant Valid() && old(trail) <= trail && Upkeep(old(writes), writes)
        invariant candidates == IdleJobs(old(memory.jobs), old(memory.pending)) - taken
        invariant passes == |taken| <= MAX_RETIREMENTS_PER_PASS && PassSoFar(old(memory), memory, taken)
      {
        PassOpen(old(memory), memory, taken);
        var id := LowestSequence(candidates);
        ghost var now, made := memory, writes;
        RetireOne(id);
        UpkeepMore(old(writes), made, writes);
        PassNext(old(memory), now, memory, taken, id);
        candidates, passes := candidates - {id}, passes + 1;
        taken := taken + {id};
      }
      PassEnd(old(memory), memory, taken);
    }

    /** The candidate with the smallest sequence number. */
    method LowestSequence(candidates: set<Id>) returns (lowest: Id)
      requires candidates != {} && forall id :: id in candidates ==> id in memory.jobs
      ensures lowest in candidates && forall id :: id in candidates ==>
              memory.jobs[lowest].job.sequence <= memory.jobs[id].job.sequence
    {
      var rest := candidates;
      lowest :| lowest in rest;
      while rest != {}
        invariant rest <= candidates && lowest in candidates
        invariant forall id :: id in candidates - rest ==>
                  memory.jobs[lowest].job.sequence <= memory.jobs[id].job.sequence
        decreases |rest|
      {
        var id :| id in rest;
        if memory.jobs[id].job.sequence < memory.jobs[lowest].job.sequence {
          lowest := id;
        }
        rest := rest - {id};
      }
    }

    method RetireOne(id: Id)
      requires Valid() && id in memory.jobs && Idle(memory.jobs[id], memory.pending)
      modifies this
      ensures Valid() && old(trail) <= trail && Upkeep(old(writes), writes)
      ensures Advanced(old(memory), memory, id, old(memory.jobs)[id].job.sequence)
    {
      var q := memory.jobs[id].job.sequence;
      Mark(q, id);
      ghost var made := writes;
      AdvanceRetirement(q, id);
      UpkeepMore(old(writes), made, writes);
      MarkThenAdvance(old(memory), old(memory).(retiring := old(memory.retiring) + {q}), memory, id, q);
    }

    /** Marks a job for deletion once. */
    method Mark(q: nat, id: Id)
      requires Valid() && id in memory.jobs && Idle(memory.jobs[id], memory.pending)
               && memory.jobs[id].job.sequence == q
      modifies this
      ensures Valid() && old(trail) <= trail && Upkeep(old(writes), writes)
      ensures memory == old(memory).(retiring := old(memory.retiring) + {q})
    {
      if q in memory.retiring {
        assert memory.retiring + {q} == memory.retiring;
        return;
      }
      MarkStep(store, memory, rules, id);
      Put(MarkRetiring(q));
      memory := memory.(retiring := memory.retiring + {q});
    }

    /** Deletes one batch of tombstones, or, exactly when none was left, the job itself. */
    method AdvanceRetirement(q: nat, id: Id)
      requires Valid() && id in memory.jobs && memory.jobs[id].job.sequence == q && q in memory.retiring
               && q !in memory.pending
      modifies this
      ensures Valid() && old(trail) <= trail && Upkeep(old(writes), writes) && |writes| == |old(writes)| + 1
      ensures Advanced(old(memory), memory, id, q)
    {
      TombstoneFacts(store, memory, rules, q);
      if q in memory.tombstones {
        DropBatch(q, id);
      } else {
        FinishRetirement(q, id);
      }
    }

    method DropBatch(q: nat, ghost id: Id)
      requires Valid() && q in memory.retiring && q in memory.tombstones
      modifies this`store, this`trail, this`writes, this`memory
      ensures Valid() && old(trail) <= trail && Upkeep(old(writes), writes) && |writes| == |old(writes)| + 1
      ensures Advanced(old(memory), memory, id, q)
    {
      var keys := Take(memory.tombstones[q], RETIRE_DELETE_BATCH);
      DropStep(store, memory, rules, q, keys);
      Put(DropTombstones(q, keys));
      memory := memory.(seen := memory.seen - keys, tombstones := TombstonesDown(memory.tombstones, q, keys));
      DropIsAdvance(old(memory), memory, id, q, keys);
    }

    method FinishRetirement(q: nat, id: Id)
      requires Valid() && id in memory.jobs && memory.jobs[id].job.sequence == q
      requires q in memory.retiring && q !in memory.tombstones && q !in memory.pending
      modifies this`store, this`trail, this`writes, this`memory
      ensures Valid() && old(trail) <= trail && Upkeep(old(writes), writes) && |writes| == |old(writes)| + 1
      ensures Advanced(old(memory), memory, id, q)
    {
      RetireStep(store, memory, rules, id);
      NoEntry(memory.pending, q);
      Put(Retire(q));
      memory := memory.(jobs := memory.jobs - {id}, pending := memory.pending - {q}, retiring := memory.retiring - {q});
      FinishIsAdvance(old(memory), memory, id, q);
    }

    // ---- Captures ----

    function HeaderOf(job: Job, prefix: seq<Byte>, submission: Submission): Header {
      Header(submission.nonce, submission.ntime, job.previousBlock, job.treeRoot, job.maskHash,
             Text(prefix + submission.extraNonce2 + Zeros(16)),
             job.reservedRoot, job.witnessRoot, job.merkleRoot, job.version, job.bits)
    }

    /** The job exists, its window is open, and the share is for it and good enough. */
    predicate Admissible(prefix: seq<Byte>, submission: Submission, receivedMs: nat)
      reads this
    {
      && submission.jobId in memory.jobs && var entry := memory.jobs[submission.jobId];
      && entry.job.issuedMs <= receivedMs && InWindow(entry, receivedMs) && submission.ntime == entry.job.ntime
      && BigEndian(shareHash(HeaderOf(entry.job, prefix, submission)).bytes) <= BigEndian(entry.job.captureTarget.bytes)
    }

    /** The capture of a share: credit is due while the job is current or before its cutoff. */
    function CaptureFor(prefix: seq<Byte>, telemetry: nat, submission: Submission, receivedMs: nat): Capture
      reads this
      requires submission.jobId in memory.jobs
    {
      var entry := memory.jobs[submission.jobId];
      var header := HeaderOf(entry.job, prefix, submission);
      Capture(submission.username, submission.jobId, entry.job.sequence, header, shareHash(header), receivedMs,
              entry.state.Active? || (entry.state.Grace? && receivedMs <= entry.state.creditCutoffMs), telemetry)
    }

    /** The checks on a submission; a capture that passes may be stored. */
    method CheckSubmission(prefix: seq<Byte>, telemetry: nat, submission: Submission, receivedMs: nat)
      returns (r: Result<Capture>)
      requires Valid() && Configured() && |prefix| == 4 && |submission.extraNonce2| == 4
      requires forall h :: |shareHash(h).bytes| == 32
      ensures r.Err? ==> r.error in {StaleJob, NtimeMismatch, HighHash}
      ensures r.Ok? <==> Admissible(prefix, submission, receivedMs)
      ensures r.Ok? ==> r.value == CaptureFor(prefix, telemetry, submission, receivedMs)
                        && rules.key(r.value) == WorkKey(r.value)
      ensures r.Ok? ==> (ValidCapture(r.value, memory.jobs[r.value.jobId].job, rules) <==>
                         WellNamed(submission.username))
    {
      if submission.jobId !in memory.jobs {
        return Err(StaleJob);
      }
      var entry := memory.jobs[submission.jobId];
      var job := entry.job;
      JobFacts(store, memory, rules, submission.jobId);
      if receivedMs < job.issuedMs {
        return Err(StaleJob);
      }
      var creditEligible := true;
      match entry.state {
        case Active =>
          if receivedMs > job.submissionEndMs {
            return Err(StaleJob);
          }
        case Grace(cutoff, end) =>
          if receivedMs > end {
            return Err(StaleJob);
          }
          creditEligible := receivedMs <= cutoff;
        case Closed => return Err(StaleJob);
      }
      if submission.ntime != job.ntime {
        return Err(NtimeMismatch);
      }
      var header := HeaderOf(job, prefix, submission);
      var hash := shareHash(header);
      JobSized(store, memory, rules, enforce, shareHash, submission.jobId);
      LessIsIntegerOrder(job.captureTarget.bytes, hash.bytes);
      if Less(job.captureTarget.bytes, hash.bytes) {
        return Err(HighHash);
      }
      var capture := Capture(submission.username, submission.jobId, job.sequence, header, hash, receivedMs,
                             creditEligible, telemetry);
      CaptureFits(capture, job, rules, enforce, shareHash, prefix, submission);
      r := Ok(capture);
    }

    /**
     Accepts a share exactly when it is admissible, its work key is new and there is room. The user name is not checked
     here: afterwards the store reopens exactly if the name has 1 to 100 bytes, which the wire parser guarantees.
     */
    method Submit(prefix: seq<Byte>, telemetry: nat, submission: Submission, receivedMs: nat)
      returns (r: Result<Capture>)
      requires Valid() && Configured() && |prefix| == 4 && |submission.extraNonce2| == 4
      requires forall h :: |shareHash(h).bytes| == 32
      modifies this
      ensures WellNamed(submission.username) || r.Err? ==> Valid() && old(trail) <= trail
      ensures r.Ok? ==> (Recoverable(store, rules) <==> WellNamed(submission.username))
      ensures r.Err? ==> r.error in {StaleJob, NtimeMismatch, HighHash, Duplicate, CaptureCapacity}
      ensures r.Ok? <==> && old(Admissible(prefix, submission, receivedMs)) && |old(memory.seen)| < MAX_CAPTURES
                         && WorkKey(old(CaptureFor(prefix, telemetry, submission, receivedMs))) !in old(memory.seen)
      ensures r == Err(Duplicate) <==>
              && old(Admissible(prefix, submission, receivedMs))
              && WorkKey(old(CaptureFor(prefix, telemetry, submission, receivedMs))) in old(memory.seen)
      ensures r == Err(Duplicate) ==> Knows(store, old(CaptureFor(prefix, telemetry, submission, receivedMs)))
      ensures r.Err? ==> store == old(store) && memory == old(memory) && writes == old(writes) && trail == old(trail)
      ensures r.Ok? ==> && r.value == old(CaptureFor(prefix, telemetry, submission, receivedMs))
                        && writes == old(writes) + [Accept(rules.key(r.value), r.value)]
                        && store == Accepted(old(store), rules.key(r.value), r.value)
                        && memory.forwarded == old(memory.forwarded) + [r.value]
      ensures r.Ok? ==> && r.value.jobId == submission.jobId && submission.jobId in old(memory.jobs)
                        && r.value.username == submission.username && r.value.receivedMs == receivedMs
                        && r.value.telemetry == telemetry && r.value.header.nonce == submission.nonce
                        && r.value.header.extraNonce.bytes[..8] == prefix + submission.extraNonce2
                        && (r.value.creditEligible <==>
                            match old(memory.jobs)[submission.jobId].state
                            case Active => true
                            case Grace(cutoff, _) => receivedMs <= cutoff
                            case Closed => false)
    {
      var checked := CheckSubmission(prefix, telemetry, submission, receivedMs);
      if checked.Err? {
        return Err(checked.error);
      }
      var capture := checked.value;
      var key := WorkKey(capture);
      if key in memory.seen {
        SeenIsKnown(store, memory, rules, enforce, shareHash, capture);
        return Err(Duplicate);
      }
      if |memory.seen| >= MAX_CAPTURES {
        return Err(CaptureCapacity);
      }
      StoreCapture(key, capture);
      r := Ok(capture);
    }

    /** A submission whose user name the wire parser has checked. */
    method SubmitParsed(prefix: seq<Byte>, telemetry: nat, submission: Submission, receivedMs: nat)
      returns (r: Result<Capture>)
      requires Valid() && Configured() && |prefix| == 4 && |submission.extraNonce2| == 4
               && WellNamed(submission.username)
      requires forall h :: |shareHash(h).bytes| == 32
      modifies this
      ensures Valid() && old(trail) <= trail
      ensures r.Err? ==> r.error in {StaleJob, NtimeMismatch, HighHash, Duplicate, CaptureCapacity}
      ensures writes == old(writes) + if r.Ok? then [Accept(rules.key(r.value), r.value)] else []
      ensures r.Ok? ==> old(Admissible(prefix, submission, receivedMs))
                        && r.value == old(CaptureFor(prefix, telemetry, submission, receivedMs))
      ensures r == Err(Duplicate) ==>
              && old(Admissible(prefix, submission, receivedMs)) && store == old(store)
              && Knows(store, old(CaptureFor(prefix, telemetry, submission, receivedMs)))
    {
      r := Submit(prefix, telemetry, submission, receivedMs);
    }

    method StoreCapture(key: Key, capture: Capture)
      requires Valid() && capture.jobId in memory.jobs && !memory.jobs[capture.jobId].state.Closed?
      requires key == rules.key(capture) && key !in memory.seen && |memory.seen| < MAX_CAPTURES
      requires capture.sequence == memory.jobs[capture.jobId].job.sequence
      modifies this`store, this`trail, this`writes, this`memory
      ensures store == Accepted(old(store), key, capture) && memory.forwarded == old(memory.forwarded) + [capture]
      ensures writes == old(writes) + [Accept(key, capture)]
      ensures ValidCapture(capture, old(memory.jobs)[capture.jobId].job, rules) ==> Valid() && old(trail) <= trail
      ensures Recoverable(store, rules) <==> ValidCapture(capture, old(memory.jobs)[capture.jobId].job, rules)
    {
      AcceptRecovers(store, memory, rules, capture);
      ghost var fits := ValidCapture(capture, memory.jobs[capture.jobId].job, rules);
      if fits {
        AcceptAllowed(store, memory, rules, capture);
        AcceptStep(store, memory, rules, capture);
        ExtendRun(trail, writes, store, Accept(key, capture), Accepted(store, key, capture), rules);
      }
      store := Accepted(store, key, capture);
      trail, writes := trail + [store], writes + [Accept(key, capture)];
      memory := memory.(seen := memory.seen + {key}, indexes := memory.indexes[key := |memory.forwarded|],
                        forwarded := memory.forwarded + [capture],
                        pending := CountUp(memory.pending, capture.sequence));
    }

    /** Replaces a pending capture by its tombstone; false if that had been done before. */
    method AcknowledgeCapture(key: Key) returns (r: Result<bool>)
      requires Valid() && Configured()
      modifies this
      ensures Valid() && r != Err(InvalidDurableState) && old(trail) <= trail
      ensures r == Err(CaptureNotFound) <==> key !in old(memory.seen)
      ensures r == Ok(true) <==> key in old(memory.indexes)
      ensures r == Ok(true) ==> writes == old(writes) + [Acknowledge(key)] && key !in memory.indexes
                                && key in memory.seen
      ensures r != Ok(true) ==> store == old(store) && memory == old(memory) && writes == old(writes)
    {
      IndexFacts(store, memory, rules, key);
      KeysFacts(store, memory, rules);
      if key !in memory.indexes {
        if key !in memory.seen {
          return Err(CaptureNotFound);
        }
        if key !in store.tombstones {
          return Err(InvalidDurableState);
        }
        TombstoneNamed(store, memory, rules, key);
        if !exists id :: id in memory.jobs && memory.jobs[id].job.sequence == store.tombstones[key] {
          return Err(InvalidDurableState);
        }
        return Ok(false);
      }
      var index := memory.indexes[key];
      if WorkKey(memory.forwarded[index]) != key {
        return Err(InvalidDurableState);
      }
      ReplaceByTombstone(key, index);
      r := Ok(true);
    }

    /** The queue without one capture, and its index. */
    method RemoveFromQueue(key: Key, index: nat) returns (rest: seq<Capture>, found: map<Key, nat>)
      requires Configured() && index < |memory.forwarded|
      ensures rest == SwapRemove(memory.forwarded, index)
              && found == IndexAfter(memory.indexes, key, rest, index, rules.key)
    {
      rest := SwapRemove(memory.forwarded, index);
      found := memory.indexes - {key};
      if index < |rest| {
        found := found[WorkKey(rest[index]) := index];
      }
      SameIndex(memory.indexes, key, rest, index, rules, enforce, shareHash, found);
    }

    method ReplaceByTombstone(key: Key, index: nat)
      requires Valid() && Configured() && key in memory.indexes && memory.indexes[key] == index
      modifies this`store, this`trail, this`writes, this`memory
      ensures Valid() && writes == old(writes) + [Acknowledge(key)] && key !in memory.indexes && key in memory.seen
      ensures old(trail) <= trail
    {
      IndexFacts(store, memory, rules, key);
      var q := memory.forwarded[index].sequence;
      var rest, found := RemoveFromQueue(key, index);
      AcknowledgeStep(store, memory, rules, key);
      var after := memory.(tombstones := TombstoneUp(memory.tombstones, q, key),
                           pending := CountDown(memory.pending, q),
                           forwarded := rest, indexes := found);
      AcknowledgedFacts(store, after, rules, key);
      Put(Acknowledge(key));
      memory := after;
    }
  }

  /** A job is idle exactly if it is closed and none of its captures waits. */
  lemma IdleIsAnswered(s: Store, m: Memory, rules: Rules, id: Id)
    requires Consistent(s, m, rules) && id in m.jobs
    ensures Idle(m.jobs[id], m.pending) <==> m.jobs[id].state.Closed? && !Pending(s.captures, m.jobs[id].job.sequence)
  {
    ConsistentMeans(s, m, rules);
    PendingMeans(s.captures, m.pending, m.jobs[id].job.sequence);
  }

  /** The store holds the same proof of work, pending or as a tombstone. */
  predicate Knows(s: Store, c: Capture) {
    && Shaped(c) && GatewayRun.Seen(s, WorkKey(c))
    && (WorkKey(c) in s.captures ==> SameProof(s.captures[WorkKey(c)], c))
  }

  lemma SeenIsKnown(s: Store, m: Memory, rules: Rules, enforce: bool, shareHash: ShareHash, c: Capture)
    requires Consistent(s, m, rules) && Governs(rules, enforce, shareHash) && Shaped(c) && WorkKey(c) in m.seen
    ensures Knows(s, c)
  {
    ConsistentMeans(s, m, rules);
    var key := WorkKey(c);
    if key in s.captures {
      assert CaptureOk(key, s.captures[key], s.jobs, rules);
      SameKeySameProof(s.captures[key], c);
    }
  }

  /** A repeated proof of work was accepted earlier in the run. */
  lemma RepeatWasAccepted(
      stores: seq<Store>, ws: seq<Write>, k: nat, c: Capture, rules: Rules, enforce: bool, shareHash: ShareHash)
    returns (i: nat)
    requires GatewayRun.Run(stores, ws, rules) && stores[0] == EMPTY && k < |stores| && Knows(stores[k], c)
    requires Governs(rules, enforce, shareHash)
    ensures i < k && ws[i].Accept? && SameProof(ws[i].capture, c)
  {
    i := GatewayRun.SeenWasAccepted(stores, ws, k, WorkKey(c), rules);
    GatewayRun.RunStep(stores, ws, rules, i);
    assert rules.capture(ws[i].capture, stores[i].jobs[ws[i].capture.sequence]);
    SameKeySameProof(ws[i].capture, c);
  }

  lemma IssueHands(m: Memory, transition: Option<PreviousJob>, job: Job)
    requires transition.Some? <==> m.current.Some?
    requires transition.Some? ==> m.current == Some(transition.value.jobId) && transition.value.jobId in m.jobs
    requires job.id !in m.jobs
    ensures HandedOver(m.jobs, HandedEntries(m, HandoverOf(transition))[job.id := Entry(job, Active)], transition,
                       job.id)
  {
  }

  /** Storing a capture leaves a store that reopens exactly if the capture is valid for its job. */
  lemma AcceptRecovers(s: Store, m: Memory, rules: Rules, c: Capture)
    requires Consistent(s, m, rules) && c.jobId in m.jobs && !m.jobs[c.jobId].state.Closed?
    requires c.sequence == m.jobs[c.jobId].job.sequence && rules.key(c) !in m.seen && |m.seen| < MAX_CAPTURES
    ensures Recoverable(Accepted(s, rules.key(c), c), rules) <==> ValidCapture(c, m.jobs[c.jobId].job, rules)
  {
    JobFacts(s, m, rules, c.jobId);
    var t := Accepted(s, rules.key(c), c);
    if ValidCapture(c, m.jobs[c.jobId].job, rules) {
      AcceptAllowed(s, m, rules, c);
      AcceptStep(s, m, rules, c);
      assert Opened(1);
    } else {
      assert !CaptureOk(rules.key(c), t.captures[rules.key(c)], t.jobs, rules);
    }
  }

  /** The first pending capture, by its work key, is stored and acknowledgeable. */
  lemma FirstIndexed(s: Store, m: Memory, rules: Rules)
    requires Consistent(s, m, rules) && m.forwarded != []
    ensures var key := rules.key(m.forwarded[0]);
            key in m.indexes && key in m.seen && key in s.captures && s.captures[key] == m.forwarded[0]
  {
    assert Opened(4);
    assert KeyedAt(s.captures, m.forwarded, m.indexes, rules.key, 0);
    assert IndexedAt(s.captures, m.forwarded, m.indexes, rules.key(m.forwarded[0]));
    KeysFacts(s, m, rules);
  }

  lemma NoEntry(pending: map<nat, nat>, q: nat)
    requires q !in pending
    ensures pending - {q} == pending
  {
  }

  lemma SameIndex(
      indexes: map<Key, nat>, k: Key, rest: seq<Capture>, index: nat, rules: Rules, enforce: bool, shareHash: ShareHash,
      found: map<Key, nat>)
    requires Governs(rules, enforce, shareHash)
    requires found == if index < |rest| then (indexes - {k})[WorkKey(rest[index]) := index] else indexes - {k}
    ensures found == IndexAfter(indexes, k, rest, index, rules.key)
  {
  }

  lemma AcknowledgedFacts(s: Store, m: Memory, rules: Rules, key: Key)
    requires key in s.captures && Consistent(Apply(s, Acknowledge(key)), m, rules)
    ensures key !in m.indexes && key in m.seen
  {
    IndexFacts(Apply(s, Acknowledge(key)), m, rules, key);
    KeysFacts(Apply(s, Acknowledge(key)), m, rules);
  }

  method Take(s: set<Key>, n: nat) returns (t: set<Key>)
    ensures t <= s && |t| <= n && (|s| <= n ==> t == s) && (|s| >= n ==> |t| == n)
  {
    t := {};
    while t != s && |t| < n
      invariant t <= s && |t| <= n
      decreases n - |t|
    {
      assert s - t != {} by {
        assert s == t + (s - t);
      }
      var k :| k in s - t;
      t := t + {k};
    }
    if t != s {
      assert |t| == n;
      SubsetSize(t, s);
    }
  }

  lemma SubsetSize(t: set<Key>, s: set<Key>)
    requires t <= s && t != s
    ensures |t| < |s|
  {
    assert s == t + (s - t);
    var k :| k in s - t;
  }

  /** Job checks do not look at the sequence number. */
  lemma SequenceIsFree(job: Job, q: nat, enforce: bool)
    requires ValidJob(job, enforce)
    ensures ValidJob(job.(sequence := q), enforce)
  {
    var c :| CaptureTarget.IsCapture(job.bits, job.blindBand, c) && c.prefix == job.prefix
      && c.capture == job.captureTarget.bytes;
    assert CaptureProfile(job.(sequence := q));
  }

  lemma JobSized(s: Store, m: Memory, rules: Rules, enforce: bool, shareHash: ShareHash, id: Id)
    requires Consistent(s, m, rules) && Governs(rules, enforce, shareHash) && id in m.jobs
    ensures |m.jobs[id].job.captureTarget.bytes| == 32
  {
    JobFacts(s, m, rules, id);
    assert Opened(1);
    var q := m.jobs[id].job.sequence;
    assert JobOk(q, s.jobs[q], s.states[q], rules);
    assert rules.job(s.jobs[q]);
  }

  lemma CaptureFits(
      c: Capture, job: Job, rules: Rules, enforce: bool, shareHash: ShareHash, prefix: seq<Byte>,
      submission: Submission)
    requires Governs(rules, enforce, shareHash) && |prefix| == 4 && |submission.extraNonce2| == 4
    requires c.jobId == job.id && c.sequence == job.sequence
    requires c.shareHash == shareHash(c.header) && |c.shareHash.bytes| == 32 && |job.captureTarget.bytes| == 32
    requires !Less(job.captureTarget.bytes, c.shareHash.bytes) && job.issuedMs <= c.receivedMs <= job.submissionEndMs
    requires submission.ntime == job.ntime
    requires c.header == Header(submission.nonce, submission.ntime, job.previousBlock, job.treeRoot, job.maskHash,
                                Text(prefix + submission.extraNonce2 + Zeros(16)),
                                job.reservedRoot, job.witnessRoot, job.merkleRoot, job.version, job.bits)
    ensures (ValidCapture(c, job, rules) <==> WellNamed(c.username)) && rules.key(c) == WorkKey(c)
  {
    LessIsIntegerOrder(job.captureTarget.bytes, c.shareHash.bytes);
    LessIsIntegerOrder(c.shareHash.bytes, job.captureTarget.bytes);
    assert CaptureMatches(c, job, shareHash) <==> WellNamed(c.username);
    assert rules.capture(c, job) <==> CaptureMatches(c, job, shareHash);
  }

  lemma ExtendRun(trail: seq<Store>, writes: seq<Write>, s: Store, w: Write, t: Store, rules: Rules)
    requires trail != [] && GatewayRun.Run(trail, writes, rules) && trail[|trail| - 1] == s
    requires Enabled(s, w, rules) && t == Apply(s, w)
    ensures GatewayRun.Run(trail + [t], writes + [w], rules)
  {
    var step := GatewayRun.StepOf(rules);
    assert step(s, w, t);
    var trail', writes' := trail + [t], writes + [w];
    forall k | 0 <= k < |writes'| ensures step(trail'[k], writes'[k], trail'[k + 1]) {
      if k < |writes| {
        assert step(trail[k], writes[k], trail[k + 1]);
      }
    }
  }

  lemma StartRun(s: Store, rules: Rules)
    ensures GatewayRun.Run([s], [], rules)
  {
  }

  lemma OpenedConsistent(s: Store, m: Memory, rules: Rules)
    requires Recoverable(s, rules) && Mirrors(s, m, rules.key)
    ensures Sound(s, rules) ==> Consistent(s.(format := true), m, rules)
  {
    ConsistentMeans(s.(format := true), m, rules);
  }

  function Digits(high: nat, low: nat, base: nat): nat { high * base + low }

  /** The queue is rebuilt by assignment, then arrival, then hash. */
  function QueueOrder(c: Capture): nat {
    Digits(Digits(c.sequence, c.receivedMs, U64_LIMIT), BigEndian(c.shareHash.bytes), Pow256(|c.shareHash.bytes|))
  }

  /**
   Opening succeeds exactly on recoverable stores; the memory mirrors the store. A new store is marked as soon as its
   jobs and head pass, so a later failure leaves the mark.
   */
  method Open(s: Store, enforce: bool, shareHash: ShareHash, ghost rules: Rules)
    returns (r: Result<Gateway>, after: Store)
    requires GatewayOpen.Typed(s) && Governs(rules, enforce, shareHash)
    ensures r.Ok? <==> Recoverable(s, rules)
    ensures after == if GatewayOpen.Markable(s, rules) then s.(format := true) else s
    ensures r.Ok? ==> fresh(r.value) && r.value.store == after == s.(format := true)
                      && Mirrors(s, r.value.memory, rules.key)
    ensures r.Ok? ==> r.value.rules == rules && r.value.Configured() && r.value.trail != [] && r.value.trail[0] == s
    ensures r.Ok? ==> r.value.writes == if s.format then [] else [WriteFormat]
    ensures Sound(s, rules) ==> r.Ok? && r.value.Valid()
  {
    var recovered;
    recovered, after := GatewayOpen.Recover(s, enforce, shareHash, QueueOrder, rules);
    if recovered.Err? {
      return Err(recovered.error), after;
    }
    var gateway := new Gateway(s, recovered.value, enforce, shareHash, rules);
    r := Ok(gateway);
  }

  predicate Bounded(c: Capture) { c.sequence < U64_LIMIT && c.receivedMs < U64_LIMIT && |c.shareHash.bytes| == 32 }

  /** Ordering by one number is ordering by assignment, then arrival, then hash. */
  lemma QueueOrderLexicographic(c: Capture, d: Capture)
    requires Bounded(c) && Bounded(d)
    ensures QueueOrder(c) < QueueOrder(d) <==>
              || c.sequence < d.sequence
              || (c.sequence == d.sequence && c.receivedMs < d.receivedMs)
              || (c.sequence == d.sequence && c.receivedMs == d.receivedMs
                  && Less(c.shareHash.bytes, d.shareHash.bytes))
  {
    LessIsIntegerOrder(c.shareHash.bytes, d.shareHash.bytes);
    BigEndianBound(c.shareHash.bytes);
    BigEndianBound(d.shareHash.bytes);
    DigitOrder(c.sequence, c.receivedMs, d.sequence, d.receivedMs, U64_LIMIT);
    DigitOrder(Digits(c.sequence, c.receivedMs, U64_LIMIT), BigEndian(c.shareHash.bytes),
               Digits(d.sequence, d.receivedMs, U64_LIMIT), BigEndian(d.shareHash.bytes), Pow256(|c.shareHash.bytes|));
  }

  lemma DigitOrder(a: nat, x: nat, b: nat, y: nat, base: nat)
    requires x < base && y < base
    ensures Digits(a, x, base) < Digits(b, y, base) <==> a < b || (a == b && x < y)
    ensures Digits(a, x, base) == Digits(b, y, base) <==> a == b && x == y
  {
    if a < b {
      MulMonotone(a + 1, b, base);
    } else if a > b {
      MulMonotone(b + 1, a, base);
    }
  }

  /** After a crash at any write of a run, opening succeeds and rebuilds the memory the gateway had. */
  lemma CrashRecovers(stores: seq<Store>, ws: seq<Write>, k: nat, live: Memory, reopened: Result<Memory>, rules: Rules)
    requires GatewayRun.Run(stores, ws, rules) && stores[0] == EMPTY && k < |stores|
    requires Mirrors(stores[k], live, rules.key) && GatewayOpen.Rebuilt(stores[k], reopened, rules)
    ensures reopened.Ok? && live.(forwarded := reopened.value.forwarded, indexes := reopened.value.indexes) ==
            reopened.value
    ensures multiset(live.forwarded) == multiset(reopened.value.forwarded)
  {
    GatewayRun.EmptySound(rules);
    GatewayRun.RunSound(stores, ws, k, rules);
    MirrorsUnique(stores[k], live, reopened.value, rules.key);
  }
}
