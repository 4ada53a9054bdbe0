/**
 Roster selection (crates/meshmine-committee/src/lib.rs): snapshot checks,
 input validation, and the three bootstrap phases. The size and duplicate
 check at the end of selection never rejects.
 */
module Roster {
  import opened Sorting
  import opened Sortition
  import opened Bits
  import M = Merkle

  datatype Snapshot = Snapshot(sourceStart: nat, sourceEnd: nat, finalizedAt: nat, leaves: seq<Leaf>, root: M.Digest)

  datatype Context = Context(epoch: nat, anchorHeight: nat, entropyStart: nat, entropyCount: nat)

  datatype Policy = Policy(size: nat, certificate: nat, opening: nat, lookback: nat, staticSeats: nat)

  datatype Schedule = Schedule(hybridStart: nat, dynamicStart: nat)

  datatype Phase = Static | Hybrid | Dynamic

  function Key(x: nat): nat { x }

  // ---- Snapshots ----

  predicate ValidLeaf(leaf: Leaf) { leaf.work > 0 && leaf.roles != {} }

  predicate ValidLeaves(leaves: seq<Leaf>) {
    && 0 < |leaves| <= MAX_ELIGIBILITY_LEAVES && Strict(leaves, LeafOperator)
    && forall i :: 0 <= i < |leaves| ==> ValidLeaf(leaves[i])
  }

  /** The neighbour checks of `validate_leaves`. */
  method ValidateLeaves(leaves: seq<Leaf>) returns (ok: bool)
    ensures ok == ValidLeaves(leaves)
  {
    if |leaves| == 0 || |leaves| > MAX_ELIGIBILITY_LEAVES {
      return false;
    }
    for i := 0 to |leaves|
      invariant Strict(leaves[..i], LeafOperator) && forall j :: 0 <= j < i ==> ValidLeaf(leaves[j])
    {
      if i > 0 && leaves[i - 1].operator >= leaves[i].operator {
        assert LeafOperator(leaves[i - 1]) >= LeafOperator(leaves[i]);
        return false;
      }
      if !ValidLeaf(leaves[i]) {
        return false;
      }
      StrictStep(leaves, i);
    }
    assert leaves[..|leaves|] == leaves;
    ok := true;
  }

  lemma StrictStep(leaves: seq<Leaf>, i: nat)
    requires i < |leaves| && Strict(leaves[..i], LeafOperator)
    requires i > 0 ==> leaves[i - 1].operator < leaves[i].operator
    ensures Strict(leaves[..i + 1], LeafOperator)
  {
    var s := leaves[..i + 1];
    forall a, b | 0 <= a < b < |s| ensures LeafOperator(s[a]) < LeafOperator(s[b]) {
      if b == i && a < i - 1 {
        assert LeafOperator(leaves[..i][a]) < LeafOperator(leaves[..i][i - 1]);
      } else if b < i {
        assert LeafOperator(leaves[..i][a]) < LeafOperator(leaves[..i][b]);
      }
    }
  }

  function Ids(leaves: seq<Leaf>, leafId: Leaf -> M.Digest): seq<M.Digest> {
    seq(|leaves|, i requires 0 <= i < |leaves| => leafId(leaves[i]))
  }

  predicate ValidSnapshot(s: Snapshot, leafId: Leaf -> M.Digest) {
    && s.sourceStart <= s.sourceEnd <= s.finalizedAt
    && ValidLeaves(s.leaves) && s.root == M.Root(Ids(s.leaves, leafId))
  }

  /** Rebuilding and comparing accepts exactly the ordered, duplicate-free, committed snapshots. */
  method VerifySnapshot(s: Snapshot, leafId: Leaf -> M.Digest) returns (r: Result<()>)
    ensures r == if ValidSnapshot(s, leafId) then Ok(()) else Err(InvalidEligibilitySnapshot)
  {
    if s.sourceStart > s.sourceEnd || s.finalizedAt < s.sourceEnd {
      return Err(InvalidEligibilitySnapshot);
    }
    var sorted := SortBy(s.leaves, LeafOperator);
    if ValidLeaves(s.leaves) {
      SortedUnique(s.leaves, sorted, LeafOperator);
    }
    var valid := ValidateLeaves(sorted);
    if !valid {
      return Err(InvalidEligibilitySnapshot);
    }
    var root := M.MerkleRoot(Ids(sorted, leafId));
    if sorted != s.leaves || root != s.root {
      return Err(InvalidEligibilitySnapshot);
    }
    r := Ok(());
  }

  // ---- Validation ----

  function PhaseOf(schedule: Schedule, epoch: nat): Result<Phase> {
    if schedule.hybridStart == 0 || schedule.dynamicStart <= schedule.hybridStart then Err(InvalidPolicy)
    else if epoch < schedule.hybridStart then Ok(Static)
    else if epoch < schedule.dynamicStart then Ok(Hybrid)
    else Ok(Dynamic)
  }

  function Rank(phase: Phase): nat { match phase case Static => 0 case Hybrid => 1 case Dynamic => 2 }

  /** The phases follow each other, from static through hybrid to dynamic, each from its start on. */
  lemma PhasesFollow(schedule: Schedule, epoch: nat, later: nat)
    requires 0 < schedule.hybridStart < schedule.dynamicStart && epoch <= later
    ensures PhaseOf(schedule, epoch).Ok? && PhaseOf(schedule, later).Ok?
    ensures Rank(PhaseOf(schedule, epoch).value) <= Rank(PhaseOf(schedule, later).value)
    ensures PhaseOf(schedule, schedule.hybridStart - 1) == Ok(Static)
            && PhaseOf(schedule, schedule.hybridStart) == Ok(Hybrid)
    ensures PhaseOf(schedule, schedule.dynamicStart - 1) == Ok(Hybrid)
    ensures PhaseOf(schedule, schedule.dynamicStart) == Ok(Dynamic)
  {
  }

  predicate ValidPolicy(policy: Policy, phase: Phase, bootstrap: seq<nat>) {
    && 0 < policy.size <= MAX_COMMITTEE_MEMBERS && 0 < policy.certificate <= policy.size
    && 0 < policy.opening <= policy.size && policy.staticSeats <= policy.size
    && (phase == Static ==> |bootstrap| == policy.size)
    && (phase == Hybrid ==> |bootstrap| >= policy.staticSeats)
    && NoDuplicates(bootstrap)
  }

  predicate Delayed(s: Snapshot, context: Context, policy: Policy) {
    s.finalizedAt + policy.lookback < U32_LIMIT && context.anchorHeight >= s.finalizedAt + policy.lookback
  }

  predicate ValidEntropy(s: Snapshot, context: Context) {
    && 0 < context.entropyCount <= MAX_ENTROPY_HASHES && context.entropyStart + context.entropyCount < U32_LIMIT
    && s.finalizedAt < context.entropyStart && context.entropyStart + context.entropyCount - 1 <= context.anchorHeight
  }

  method CanonicalBootstrap(bootstrap: seq<nat>) returns (canonical: seq<nat>)
    ensures Strict(canonical, Key) && Elements(canonical) == Elements(bootstrap)
    ensures |canonical| == |bootstrap| <==> NoDuplicates(bootstrap)
  {
    var sorted := SortBy(bootstrap, (x: nat) => x);
    canonical := Dedup(sorted);
    PermutationElements(bootstrap, sorted);
    ElementsCount(bootstrap);
    ElementsCount(canonical);
    assert forall i, j :: 0 <= i < j < |canonical| ==> canonical[i] < canonical[j] by {
      assert Strict(canonical, (x: nat) => x);
    }
  }

  predicate ValidInputs(s: Snapshot, leafId: Leaf -> M.Digest, context: Context, policy: Policy, schedule: Schedule,
                        bootstrap: seq<nat>)
  {
    var phase := PhaseOf(schedule, context.epoch);
    && phase.Ok? && ValidPolicy(policy, phase.value, bootstrap)
    && (phase.value == Static || (ValidSnapshot(s, leafId) && Delayed(s, context, policy) && ValidEntropy(s, context)))
  }

  method ValidateInputs(s: Snapshot, leafId: Leaf -> M.Digest, context: Context, policy: Policy, schedule: Schedule,
                        bootstrap: seq<nat>) returns (r: Result<()>)
    ensures r.Ok? <==> ValidInputs(s, leafId, context, policy, schedule, bootstrap)
    ensures r.Err? ==> r.error != InsufficientEligibleOperators
  {
    var phase :- PhaseOf(schedule, context.epoch);
    if policy.size == 0 || policy.size > MAX_COMMITTEE_MEMBERS
       || policy.certificate == 0 || policy.certificate > policy.size
       || policy.opening == 0 || policy.opening > policy.size || policy.staticSeats > policy.size
       || (phase == Static && |bootstrap| != policy.size)
       || (phase == Hybrid && |bootstrap| < policy.staticSeats)
    {
      return Err(InvalidPolicy);
    }
    var canonical := CanonicalBootstrap(bootstrap);
    if |canonical| != |bootstrap| {
      return Err(InvalidPolicy);
    }
    if phase == Static {
      return Ok(());
    }
    var _ :- VerifySnapshot(s, leafId);
    if s.finalizedAt + policy.lookback >= U32_LIMIT || context.anchorHeight < s.finalizedAt + policy.lookback {
      return Err(EligibilityNotDelayed);
    }
    var entropyEnd := context.entropyStart + context.entropyCount;
    if entropyEnd >= U32_LIMIT || entropyEnd == 0 || context.entropyCount == 0
       || context.entropyCount > MAX_ENTROPY_HASHES || context.entropyStart <= s.finalizedAt
       || entropyEnd - 1 > context.anchorHeight
    {
      return Err(InvalidEntropyWindow);
    }
    r := Ok(());
  }

  // ---- Selection ----

  function DynamicSeats(policy: Policy, phase: Phase): nat
    requires policy.staticSeats <= policy.size
  {
    match phase
    case Static => 0
    case Hybrid => policy.size - policy.staticSeats
    case Dynamic => policy.size
  }

  /** The members that are seated without a draw. */
  function Seated(canonical: seq<nat>, policy: Policy, phase: Phase): seq<nat>
    requires phase == Hybrid ==> policy.staticSeats <= |canonical|
  {
    match phase
    case Static => canonical
    case Hybrid => canonical[..policy.staticSeats]
    case Dynamic => []
  }

  lemma CandidatesCount(leaves: seq<Leaf>, role: Role, excluded: set<nat>)
    requires Strict(leaves, LeafOperator)
    ensures |CandidatesOf(leaves, role, excluded)| == |EligibleOperators(leaves, role, excluded)|
  {
    CandidatesStrict(leaves, role, excluded);
    CandidateOperators(leaves, role, excluded);
    OperatorsCount(CandidatesOf(leaves, role, excluded));
  }

  lemma OperatorsCount(cs: seq<Candidate>)
    requires Strict(cs, OperatorOf)
    ensures |Operators(cs)| == |cs|
  {
    var names := seq(|cs|, i requires 0 <= i < |cs| => cs[i].operator);
    assert NoDuplicates(names) by {
      forall i, j | 0 <= i < j < |names| ensures names[i] != names[j] {
        assert OperatorOf(cs[i]) < OperatorOf(cs[j]);
      }
    }
    ElementsCount(names);
    assert Elements(names) == Operators(cs) by {
      forall o ensures o in Elements(names) <==> o in Operators(cs) {
        if o in Operators(cs) {
          var k :| 0 <= k < |cs| && cs[k].operator == o;
          assert names[k] == o;
        }
      }
    }
  }

  lemma JoinDistinct(seated: seq<nat>, drawn: seq<nat>)
    requires NoDuplicates(seated) && NoDuplicates(drawn) && Elements(seated) !! Elements(drawn)
    ensures NoDuplicates(seated + drawn)
  {
    forall i, j | 0 <= i < |seated| && 0 <= j < |drawn| ensures seated[i] != drawn[j] {
      assert seated[i] in Elements(seated) && drawn[j] in Elements(drawn);
    }
  }

  lemma {:induction false} EligibleOutside(leaves: seq<Leaf>, role: Role, excluded: set<nat>)
    ensures EligibleOperators(leaves, role, excluded) !! excluded
  {
  }

  /**
   Every phase yields exactly `size` distinct members in order. When the draw is
   short, it is because too few operators are eligible, never because of the
   final size and duplicate check.
   */
  method SelectRoster(
      s: Snapshot, leafId: Leaf -> M.Digest, context: Context, role: Role, policy: Policy, schedule: Schedule,
      bootstrap: seq<nat>, draw: Oracle, bits: nat)
    returns (r: Result<seq<nat>>, ghost seated: seq<nat>, ghost drawn: seq<nat>, ghost counters: seq<nat>)
    ensures r.Ok? ==> ValidInputs(s, leafId, context, policy, schedule, bootstrap)
    ensures r.Ok? ==> |r.value| == policy.size && Strict(r.value, Key)
    ensures r.Ok? ==>
              && Elements(r.value) == Elements(seated) + Elements(drawn) && Elements(seated) !! Elements(drawn)
              && Elements(drawn) <= EligibleOperators(s.leaves, role, Elements(seated))
              && |drawn| == DynamicSeats(policy, PhaseOf(schedule, context.epoch).value)
              && DrawnByWork(s.leaves, role, Elements(seated), draw, Pow2(bits), drawn, counters)
    ensures r.Ok? ==> SeatsFirst(seated, bootstrap, policy, PhaseOf(schedule, context.epoch).value)
    ensures r.Ok? && context.epoch < schedule.hybridStart ==> drawn == [] && Elements(r.value) == Elements(bootstrap)
    ensures r.Ok? && schedule.hybridStart <= context.epoch < schedule.dynamicStart ==> |seated| == policy.staticSeats
    ensures r.Ok? && schedule.dynamicStart <= context.epoch ==> seated == [] && |drawn| == policy.size
    ensures r == Err(InsufficientEligibleOperators) <==>
              && ValidInputs(s, leafId, context, policy, schedule, bootstrap)
              && SeatsFirst(seated, bootstrap, policy, PhaseOf(schedule, context.epoch).value)
              && |EligibleOperators(s.leaves, role, Elements(seated))| + |seated| < policy.size
  {
    seated, drawn, counters := [], [], [];
    var validation := ValidateInputs(s, leafId, context, policy, schedule, bootstrap);
    if validation.Err? {
      return Err(validation.error), seated, drawn, counters;
    }
    var phase := PhaseOf(schedule, context.epoch).value;
    var canonical := CanonicalBootstrap(bootstrap);
    var selected := Seated(canonical, policy, phase);
    seated := selected;
    SeatedFacts(canonical, bootstrap, policy, phase);
    if phase != Static {
      var dynamic := WeightedDraw(s.leaves, role, draw, bits, DynamicSeats(policy, phase), Elements(selected));
      CandidatesCount(s.leaves, role, Elements(selected));
      if dynamic.Err? {
        return Err(dynamic.error), seated, drawn, counters;
      }
      drawn, counters := dynamic.value.0, dynamic.value.1;
      EligibleOutside(s.leaves, role, Elements(selected));
      JoinDistinct(selected, dynamic.value.0);
      ElementsConcat(selected, dynamic.value.0);
      selected := selected + dynamic.value.0;
    }
    var sorted := SortBy(selected, (x: nat) => x);
    PermutationElements(selected, sorted);
    StrictlyIncreasing(sorted);
    if |sorted| != policy.size || !NoDuplicates(sorted) {
      return Err(InsufficientEligibleOperators), seated, drawn, counters;
    }
    r := Ok(sorted);
  }

  /** The seats filled without a draw go to the lowest bootstrap keys. */
  predicate SeatsFirst(seated: seq<nat>, bootstrap: seq<nat>, policy: Policy, phase: Phase) {
    && policy.staticSeats <= policy.size && |seated| == policy.size - DynamicSeats(policy, phase)
    && NoDuplicates(seated) && Elements(seated) <= Elements(bootstrap)
    && forall x, y :: x in seated && y in bootstrap && y !in seated ==> x < y
  }

  lemma SeatedFacts(canonical: seq<nat>, bootstrap: seq<nat>, policy: Policy, phase: Phase)
    requires Strict(canonical, Key) && Elements(canonical) == Elements(bootstrap) && |canonical| == |bootstrap|
    requires ValidPolicy(policy, phase, bootstrap)
    ensures SeatsFirst(Seated(canonical, policy, phase), bootstrap, policy, phase)
  {
    var seated := Seated(canonical, policy, phase);
    assert forall i, j :: 0 <= i < j < |canonical| ==> Key(canonical[i]) < Key(canonical[j]);
    forall x | x in seated ensures x in Elements(canonical) {
    }
    forall x, y | x in seated && y in bootstrap && y !in seated ensures x < y {
      assert y in Elements(canonical);
      var i :| 0 <= i < |seated| && seated[i] == x;
      var j :| 0 <= j < |canonical| && canonical[j] == y;
      assert Key(canonical[i]) < Key(canonical[j]);
    }
  }

  lemma ElementsConcat(a: seq<nat>, b: seq<nat>)
    ensures Elements(a + b) == Elements(a) + Elements(b)
  {
  }

  lemma StrictlyIncreasing(s: seq<nat>)
    requires Sorted(s, (x: nat) => x) && NoDuplicates(s)
    ensures Strict(s, Key)
  {
    forall i, j | 0 <= i < j < |s| ensures Key(s[i]) < Key(s[j]) {
      assert ((x: nat) => x)(s[i]) <= ((x: nat) => x)(s[j]);
    }
  }
}
