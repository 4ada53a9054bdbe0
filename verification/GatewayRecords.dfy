/**
 The gateway's checks on single jobs and captures
 (crates/meshmine-gateway/src/lib.rs), and the work key that identifies a
 capture. The header hash is a parameter.
 */
module GatewayRecords {
  import opened Bytes
  import opened GatewayStore
  import GatewayRun
  import Bits
  import Target
  import CaptureTarget

  const MAX_USERNAME: nat := 100

  datatype Error =
    | InvalidDurableState | InvalidJobId | JobTooLarge | InvalidJobTiming | InvalidDifficulty | InvalidCaptureProfile
    | AdvertisedTargetMismatch | DeviceTargetTooHard | AssignmentConflict | AssignmentAuthorizationMismatch
    | AssignmentCapacity | ActiveJobExists | SequenceExhausted | StaleJob | NtimeMismatch | HighHash | Duplicate
    | CaptureCapacity | CaptureNotFound

  datatype Result<+T> = Ok(value: T) | Err(error: Error) {
    predicate IsFailure() { Err? }
    function PropagateFailure<U>(): Result<U>
      requires Err?
    {
      Err(error)
    }
    function Extract(): T
      requires Ok?
    {
      value
    }
  }

  // ---- Work keys ----

  function Little32(value: nat): (r: seq<Byte>)
    ensures |r| == 4
  {
    [value % 256, value / 256 % 256, value / 65536 % 256, value / 16777216 % 256]
  }

  function KeySuffix(c: Capture): seq<Byte> {
    c.header.extraNonce.bytes + Little32(c.header.time) + Little32(c.header.nonce) + c.shareHash.bytes
  }

  /** The preimage of the deduplication key; an ideal hash is injective on it. */
  function WorkKey(c: Capture): Key { Text(c.jobId.bytes + KeySuffix(c)) }

  predicate Shaped(c: Capture) { |c.header.extraNonce.bytes| == 24 && |c.shareHash.bytes| == 32 }

  /** The suffix has a fixed length, so equal keys have equal job ids although ids vary in length. */
  lemma SameKeySameJob(c: Capture, d: Capture)
    requires Shaped(c) && Shaped(d) && WorkKey(c) == WorkKey(d)
    ensures c.jobId == d.jobId && KeySuffix(c) == KeySuffix(d)
  {
    SplitConcat(c.jobId.bytes, KeySuffix(c), d.jobId.bytes, KeySuffix(d));
  }

  const U32_LIMIT: nat := 0x1_0000_0000

  /** The same proof of work: job, extra nonce, nonce, header time and share hash; time counts in 32 bits. */
  predicate SameProof(c: Capture, d: Capture) {
    && c.jobId == d.jobId && c.header.extraNonce == d.header.extraNonce && c.shareHash == d.shareHash
    && c.header.nonce % U32_LIMIT == d.header.nonce % U32_LIMIT
       && c.header.time % U32_LIMIT == d.header.time % U32_LIMIT
  }

  lemma Little32Value(n: nat)
    ensures var b: seq<nat> := Little32(n);
            n % U32_LIMIT == b[0] + 256 * b[1] + 65536 * b[2] + 16777216 * b[3]
  {
    var q1 := n / 256;
    var q2 := q1 / 256;
    var q3 := q2 / 256;
    assert n / 65536 == q2 && n / 16777216 == q3;
    assert n == n % 256 + 256 * (q1 % 256) + 65536 * (q2 % 256) + 16777216 * q3;
    assert q3 == 256 * (q3 / 256) + q3 % 256;
    assert n == n % 256 + 256 * (q1 % 256) + 65536 * (q2 % 256) + 16777216 * (q3 % 256) + U32_LIMIT * (q3 / 256);
  }

  lemma Little32Same(a: nat, b: nat)
    ensures Little32(a) == Little32(b) <==> a % U32_LIMIT == b % U32_LIMIT
  {
    Little32Value(a);
    Little32Value(b);
    var x, y := Little32(a), Little32(b);
    if a % U32_LIMIT == b % U32_LIMIT {
      DigitsSame(x[0], x[1], x[2], x[3], y[0], y[1], y[2], y[3]);
    }
  }

  lemma DigitsSame(a: nat, b: nat, c: nat, d: nat, e: nat, f: nat, g: nat, h: nat)
    requires a < 256 && b < 256 && c < 256 && d < 256 && e < 256 && f < 256 && g < 256 && h < 256
    requires a + 256 * b + 65536 * c + 16777216 * d == e + 256 * f + 65536 * g + 16777216 * h
    ensures a == e && b == f && c == g && d == h
  {
  }

  /** Keys are equal exactly for the same proof of work, so only a repeated proof is a duplicate. */
  lemma SameKeySameProof(c: Capture, d: Capture)
    requires Shaped(c) && Shaped(d)
    ensures WorkKey(c) == WorkKey(d) <==> SameProof(c, d)
  {
    Little32Same(c.header.time, d.header.time);
    Little32Same(c.header.nonce, d.header.nonce);
    if WorkKey(c) == WorkKey(d) {
      SameKeySameJob(c, d);
      SuffixSame(c, d);
    }
  }

  predicate Fits32(c: Capture) { c.header.nonce < U32_LIMIT && c.header.time < U32_LIMIT }

  /** Within 32 bits the same proof of work has the same nonce and time. */
  lemma SameProofExact(c: Capture, d: Capture)
    requires Fits32(c) && Fits32(d)
    ensures SameProof(c, d) <==>
            && c.jobId == d.jobId && c.header.extraNonce == d.header.extraNonce && c.shareHash == d.shareHash
            && c.header.nonce == d.header.nonce && c.header.time == d.header.time
  {
  }

  lemma SuffixSame(c: Capture, d: Capture)
    requires Shaped(c) && Shaped(d) && KeySuffix(c) == KeySuffix(d)
    ensures c.header.extraNonce == d.header.extraNonce && c.shareHash == d.shareHash
    ensures Little32(c.header.time) == Little32(d.header.time) && Little32(c.header.nonce) == Little32(d.header.nonce)
  {
    var x, y := c.header, d.header;
    SplitConcat(x.extraNonce.bytes + Little32(x.time) + Little32(x.nonce), c.shareHash.bytes,
                y.extraNonce.bytes + Little32(y.time) + Little32(y.nonce), d.shareHash.bytes);
    SplitConcat(x.extraNonce.bytes + Little32(x.time), Little32(x.nonce),
                y.extraNonce.bytes + Little32(y.time), Little32(y.nonce));
    SplitConcat(x.extraNonce.bytes, Little32(x.time), y.extraNonce.bytes, Little32(y.time));
  }

  lemma SplitConcat(a: seq<Byte>, x: seq<Byte>, b: seq<Byte>, y: seq<Byte>)
    requires a + x == b + y && |x| == |y|
    ensures a == b && x == y
  {
    assert |a| == |b|;
    assert a == (a + x)[..|a|] && b == (b + y)[..|b|];
    assert x == (a + x)[|a|..] && y == (b + y)[|b|..];
  }

  // ---- Jobs ----

  predicate IdChar(b: Byte) { 48 <= b <= 57 || 65 <= b <= 90 || 97 <= b <= 122 || b == 45 }

  predicate ValidId(id: Id) { 12 <= |id.bytes| <= 64 && forall i :: 0 <= i < |id.bytes| ==> IdChar(id.bytes[i]) }

  predicate TargetsSized(job: Job) { |job.captureTarget.bytes| == 32 && |job.advertisedTarget.bytes| == 32 }

  /** The capture target is the one derived from the network target and the blind band. */
  ghost predicate CaptureProfile(job: Job) {
    exists c :: CaptureTarget.IsCapture(job.bits, job.blindBand, c) && c.prefix == job.prefix
      && c.capture == job.captureTarget.bytes
  }

  predicate ValidDifficulty(difficulty: nat) { 0 < difficulty <= CaptureTarget.MAX_HANDY_DIFFICULTY }

  predicate DeviceTarget(job: Job, enforce: bool)
    requires ValidDifficulty(job.difficulty)
  {
    && TargetsSized(job) && !Less(job.advertisedTarget.bytes, job.captureTarget.bytes)
    && (enforce ==> BigEndian(job.advertisedTarget.bytes) == CaptureTarget.HandyTarget(job.difficulty))
  }

  ghost predicate ValidJob(job: Job, enforce: bool) {
    && ValidId(job.id) && |job.transactions.hashes| <= MAX_JOB_TRANSACTIONS
    && job.issuedMs <= job.assignmentEndMs <= job.submissionEndMs
    && ValidDifficulty(job.difficulty) && CaptureProfile(job) && DeviceTarget(job, enforce)
  }

  lemma ProfileUnique(bits: nat, d: nat, a: CaptureTarget.CaptureParameters, b: CaptureTarget.CaptureParameters)
    requires CaptureTarget.IsCapture(bits, d, a) && CaptureTarget.IsCapture(bits, d, b)
    ensures a.prefix == b.prefix && a.capture == b.capture
  {
    LessIsIntegerOrder(a.capture, b.capture);
  }

  method CheckProfile(job: Job) returns (ok: bool)
    ensures ok <==> CaptureProfile(job)
  {
    var derived := CaptureTarget.DeriveCaptureParameters(job.bits, job.blindBand);
    if derived.Err? {
      assert derived.error.InvalidTarget? || derived.error.InvalidBlindBand?;
      NoProfile(job);
      return false;
    }
    ok := derived.value.prefix == job.prefix && derived.value.capture == job.captureTarget.bytes;
    if CaptureProfile(job) {
      var c :| CaptureTarget.IsCapture(job.bits, job.blindBand, c) && c.prefix == job.prefix
        && c.capture == job.captureTarget.bytes;
      ProfileUnique(job.bits, job.blindBand, c, derived.value);
    }
  }

  lemma NoProfile(job: Job)
    requires var target := Target.CompactToTarget(job.bits);
             !CaptureTarget.ValidTarget(target) || job.blindBand == 0 || Bits.BitLength(target) + job.blindBand >= 256
    ensures !CaptureProfile(job)
  {
  }

  /** `validate_job` accepts exactly the valid jobs. */
  method ValidateJob(job: Job, enforce: bool) returns (r: Result<()>)
    requires TargetsSized(job)
    ensures r.Ok? <==> ValidJob(job, enforce)
    ensures r.Err? ==> r.error != InvalidDurableState
  {
    var idOk := CheckId(job.id);
    if !idOk {
      return Err(InvalidJobId);
    }
    if |job.transactions.hashes| > MAX_JOB_TRANSACTIONS {
      return Err(JobTooLarge);
    }
    if job.issuedMs > job.assignmentEndMs || job.assignmentEndMs > job.submissionEndMs {
      return Err(InvalidJobTiming);
    }
    if !ValidDifficulty(job.difficulty) {
      return Err(InvalidDifficulty);
    }
    var profile := CheckProfile(job);
    if !profile {
      return Err(InvalidCaptureProfile);
    }
    if enforce {
      var handy := CaptureTarget.HandyTargetFromDifficulty(job.difficulty);
      LessIsIntegerOrder(job.advertisedTarget.bytes, handy.value);
      if job.advertisedTarget.bytes != handy.value {
        return Err(AdvertisedTargetMismatch);
      }
    }
    if Less(job.advertisedTarget.bytes, job.captureTarget.bytes) {
      return Err(DeviceTargetTooHard);
    }
    r := Ok(());
  }

  method CheckId(id: Id) returns (ok: bool)
    ensures ok == ValidId(id)
  {
    if |id.bytes| < 12 || |id.bytes| > 64 {
      return false;
    }
    for i := 0 to |id.bytes|
      invariant forall j :: 0 <= j < i ==> IdChar(id.bytes[j])
    {
      if !IdChar(id.bytes[i]) {
        return false;
      }
    }
    ok := true;
  }

  // ---- Captures ----

  type ShareHash = Header -> Text

  predicate HeaderMatches(h: Header, job: Job) {
    && h.time == job.ntime && h.previousBlock == job.previousBlock && h.merkleRoot == job.merkleRoot
    && h.witnessRoot == job.witnessRoot && h.treeRoot == job.treeRoot && h.reservedRoot == job.reservedRoot
    && h.version == job.version && h.bits == job.bits && h.maskHash == job.maskHash
    && |h.extraNonce.bytes| == 24 && forall i :: 8 <= i < 24 ==> h.extraNonce.bytes[i] == 0
  }

  predicate CaptureMatches(c: Capture, job: Job, shareHash: ShareHash) {
    && Shaped(c) && 0 < |c.username.bytes| <= MAX_USERNAME && HeaderMatches(c.header, job)
    && shareHash(c.header) == c.shareHash
    && |job.captureTarget.bytes| == 32 && AtMost(c.shareHash.bytes, job.captureTarget.bytes)
    && job.issuedMs <= c.receivedMs <= job.submissionEndMs
  }

  /** The rules the gateway's store follows in one mode. */
  ghost predicate Governs(rules: Rules, enforce: bool, shareHash: ShareHash) {
    && (forall job :: rules.job(job) <==> ValidJob(job, enforce))
    && (forall c, job :: rules.capture(c, job) <==> CaptureMatches(c, job, shareHash))
    && (forall c :: rules.key(c) == WorkKey(c))
  }

  lemma KeysNameJobs(rules: Rules, enforce: bool, shareHash: ShareHash)
    requires Governs(rules, enforce, shareHash)
    ensures GatewayRun.KeysNameJobs(rules)
  {
    forall c, j, d, k | rules.capture(c, j) && rules.capture(d, k) && rules.key(c) == rules.key(d)
      ensures c.jobId == d.jobId
    {
      SameKeySameJob(c, d);
    }
  }

  /** Such rules exist. */
  ghost function RulesFor(enforce: bool, shareHash: ShareHash): (rules: Rules)
    ensures Governs(rules, enforce, shareHash)
  {
    Rules(job => ValidJob(job, enforce), (c, job) => CaptureMatches(c, job, shareHash), c => WorkKey(c))
  }
}
