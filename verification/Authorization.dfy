/**
 From a bundle to the shares mined on it: the job made of a bundle
 (crates/meshmine-core-link/src/bundle.rs), submission under the bundle's
 assignment (crates/meshmine-gateway/src/lib.rs) and the checks the operator's
 spool makes before it forwards the capture
 (crates/meshmine-core-link/src/spool.rs). The two sets of checks were written
 apart; here they are proved to agree.
 */
module Authorization {
  import opened Bytes
  import opened GatewayStore
  import opened GatewayRecords
  import opened Client
  import Gateway
  import GatewaySteps
  import GatewayRun
  import GatewayMemory
  import GatewayRetire

  /** The job is the one made of the bundle, with the number the gateway gave it. */
  predicate MadeFrom(job: Job, b: Bundle) {
    && job.id == b.assignment && job.sequence == b.sequence && job.ntime == b.ntime
    && job.previousBlock == b.previousBlock && job.merkleRoot == b.merkleRoot && job.witnessRoot == b.witnessRoot
    && job.treeRoot == b.treeRoot && job.reservedRoot == b.reservedRoot && job.maskHash == b.maskHash
    && job.version == b.version && job.bits == b.bits && BigEndian(job.captureTarget.bytes) == b.captureTarget
    && job.issuedMs == b.startMs && job.submissionEndMs == b.endMs
  }

  /** The submission stays within what the assignment allows. */
  predicate Authorized(b: Bundle, prefix: seq<Byte>, telemetry: nat, submission: Gateway.Submission) {
    && submission.jobId == b.assignment && prefix == b.prefix.bytes && submission.ntime == b.ntime
    && b.nonce2Start <= BigEndian(submission.extraNonce2) <= b.nonce2End
    && b.nonceStart <= submission.nonce <= b.nonceEnd && b.nonceStride != 0
    && (submission.nonce - b.nonceStart) % b.nonceStride == 0 && telemetry == b.telemetry
  }

  lemma ExtraNonceFits(b: Bundle, prefix: seq<Byte>, extraNonce2: seq<Byte>)
    requires |prefix| == 4 && |extraNonce2| == 4 && b.profile
    ensures AcceptsExtraNonce(b, prefix + extraNonce2 + Zeros(16)) <==>
            prefix == b.prefix.bytes && b.nonce2Start <= BigEndian(extraNonce2) <= b.nonce2End
  {
    var extra := prefix + extraNonce2 + Zeros(16);
    assert extra[..4] == prefix && extra[4..8] == extraNonce2;
  }

  /**
   An admissible share on a job made of a bundle passes the checks of the spool exactly if it was authorized: what is
   submitted under the assignment can always be forwarded, and nothing else can.
   */
  lemma AuthorizedFits(g: Gateway.Gateway, b: Bundle, prefix: seq<Byte>, telemetry: nat, submission: Gateway.Submission,
                       receivedMs: nat)
    requires g.Valid() && g.Admissible(prefix, submission, receivedMs) && |prefix| == 4 && |submission.extraNonce2| == 4
    requires b.profile && submission.jobId == b.assignment && MadeFrom(g.memory.jobs[submission.jobId].job, b)
    ensures var c := g.CaptureFor(prefix, telemetry, submission, receivedMs);
            FitsAssignment(c, b, g.shareHash) && FitsContext(c, b) <==> Authorized(b, prefix, telemetry, submission)
  {
    GatewaySteps.JobFacts(g.store, g.memory, g.rules, submission.jobId);
    ExtraNonceFits(b, prefix, submission.extraNonce2);
  }

  /** Submission under an assignment. */
  method SubmitAuthorized(
      g: Gateway.Gateway, b: Bundle, prefix: seq<Byte>, telemetry: nat, submission: Gateway.Submission, receivedMs: nat)
    returns (r: GatewayRecords.Result<Capture>)
    requires g.Valid() && g.Configured() && |prefix| == 4 && |submission.extraNonce2| == 4
    requires Gateway.WellNamed(submission.username) && forall h :: |g.shareHash(h).bytes| == 32
    modifies g
    ensures g.Valid() && old(g.trail) <= g.trail
    ensures r == GatewayRecords.Err(AssignmentAuthorizationMismatch) <==>
            !Authorized(b, prefix, telemetry, submission)
    ensures r.Ok? ==> g.writes == old(g.writes) + [Accept(g.rules.key(r.value), r.value)]
    ensures r.Ok? ==> submission.jobId in old(g.memory.jobs)
    ensures r.Ok? && b.profile && MadeFrom(old(g.memory.jobs)[submission.jobId].job, b) ==>
            FitsAssignment(r.value, b, g.shareHash) && FitsContext(r.value, b)
  {
    if submission.jobId != b.assignment || prefix != b.prefix.bytes || BigEndian(submission.extraNonce2) < b.nonce2Start
       || BigEndian(submission.extraNonce2) > b.nonce2End || submission.nonce < b.nonceStart
       || submission.nonce > b.nonceEnd || b.nonceStride == 0
       || (submission.nonce - b.nonceStart) % b.nonceStride != 0 || submission.ntime != b.ntime
       || telemetry != b.telemetry
    {
      return GatewayRecords.Err(AssignmentAuthorizationMismatch);
    }
    if submission.jobId in g.memory.jobs && g.Admissible(prefix, submission, receivedMs) && b.profile {
      if MadeFrom(g.memory.jobs[submission.jobId].job, b) {
        AuthorizedFits(g, b, prefix, telemetry, submission, receivedMs);
      }
    }
    r := g.SubmitParsed(prefix, telemetry, submission, receivedMs);
  }

  // ---- What every store of every run says about shares and times ----

  /** A stored capture proves its work on its job: the header, the hash and the target are the job's. */
  predicate Proves(c: Capture, job: Job, shareHash: ShareHash) {
    && c.jobId == job.id && c.shareHash == shareHash(c.header)
    && BigEndian(c.shareHash.bytes) <= BigEndian(job.captureTarget.bytes)
    && c.header.previousBlock == job.previousBlock && c.header.merkleRoot == job.merkleRoot
    && c.header.witnessRoot == job.witnessRoot && c.header.treeRoot == job.treeRoot
    && c.header.reservedRoot == job.reservedRoot && c.header.maskHash == job.maskHash
    && c.header.version == job.version && c.header.bits == job.bits && c.header.time == job.ntime
    && job.issuedMs <= c.receivedMs <= job.submissionEndMs
  }

  /** In every store a run passes through, every capture proves its work on its job. */
  lemma StoredCapturesProve(stores: seq<Store>, ws: seq<GatewayStore.Write>, k: nat, key: Key, rules: Rules,
                            enforce: bool, shareHash: ShareHash)
    requires GatewayRun.Run(stores, ws, rules) && stores[0] == EMPTY && k < |stores| && key in stores[k].captures
    requires Governs(rules, enforce, shareHash)
    ensures var c := stores[k].captures[key];
            c.sequence in stores[k].jobs && Proves(c, stores[k].jobs[c.sequence], shareHash)
  {
    GatewayRun.EmptySound(rules);
    GatewayRun.RunSound(stores, ws, k, rules);
    var c := stores[k].captures[key];
    assert CaptureOk(key, c, stores[k].jobs, rules);
    var job := stores[k].jobs[c.sequence];
    assert rules.capture(c, job);
    LessIsIntegerOrder(job.captureTarget.bytes, c.shareHash.bytes);
    LessIsIntegerOrder(c.shareHash.bytes, job.captureTarget.bytes);
  }

  /** In every store a run passes through, every grace period lies within the window of its job. */
  lemma GraceWithinWindow(stores: seq<Store>, ws: seq<GatewayStore.Write>, k: nat, q: nat, rules: Rules)
    requires GatewayRun.Run(stores, ws, rules) && stores[0] == EMPTY && k < |stores| && q in stores[k].states
    ensures q in stores[k].jobs
    ensures var (job, state) := (stores[k].jobs[q], stores[k].states[q]);
            state.Grace? ==> job.issuedMs <= state.creditCutoffMs <= state.submissionEndMs <= job.submissionEndMs
  {
    GatewayRun.EmptySound(rules);
    GatewayRun.RunSound(stores, ws, k, rules);
    assert q in stores[k].jobs && JobOk(q, stores[k].jobs[q], stores[k].states[q], rules);
  }

  /** A job expires exactly when it takes no more shares. */
  lemma ExpiredIsShut(entry: GatewayMemory.Entry, nowMs: nat)
    requires !entry.state.Closed?
    ensures GatewayRetire.Expired(entry, nowMs) <==> !Gateway.InWindow(entry, nowMs)
    ensures GatewayRetire.Expired(entry, nowMs) ==> forall later :: later >= nowMs ==> !Gateway.InWindow(entry, later)
  {
  }
}
