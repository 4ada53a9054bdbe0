/**
 Committee sortition (crates/meshmine-committee/src/lib.rs): the weighted draw
 without replacement and the roster it fills. Hash values are a parameter:
 `draw(i, c)` is the value hashed for draw i and counter c. The program
 uses 512-bit values; the width is the parameter `bits`.
 */
module Sortition {
  import opened Arith
  import opened Bits
  import opened Sorting

  const U64_LIMIT: nat := 0x1_0000_0000_0000_0000
  const U32_LIMIT: nat := 0x1_0000_0000
  const MAX_ELIGIBILITY_LEAVES: nat := 1_000_000
  const MAX_ENTROPY_HASHES: nat := 1_024
  const MAX_COMMITTEE_MEMBERS: nat := 256

  datatype Role = Mask | Receipt | Availability | Settlement

  datatype Leaf = Leaf(operator: nat, work: nat, roles: set<Role>)

  datatype Error =
    | InvalidEligibilitySnapshot
    | EligibilityWeightOverflow
    | EligibilityNotDelayed
    | InvalidEntropyWindow
    | InvalidPolicy
    | InsufficientEligibleOperators
    | CounterOverflow

  datatype Result<+T> = Ok(value: T) | Err(error: Error) {
    predicate IsFailure() { Err? }
    function PropagateFailure<U>(): Result<U>
      requires Err?
    {
      Err(error)
    }
    function Extract(): T
      requires Ok?
    {
      value
    }
  }

  // ---- Who wins a value ----

  function Total(weights: seq<nat>): nat {
    if weights == [] then 0 else weights[0] + Total(weights[1..])
  }

  /** The first index whose cumulative weight exceeds the residue. */
  function Winner(weights: seq<nat>, residue: nat): (i: nat)
    requires residue < Total(weights)
    ensures i < |weights|
  {
    if residue < weights[0] then 0 else 1 + Winner(weights[1..], residue - weights[0])
  }

  function Before(weights: seq<nat>, i: nat): nat
    requires i <= |weights|
  {
    Total(weights[..i])
  }

  lemma BeforeStep(weights: seq<nat>, i: nat)
    requires weights != [] && 0 < i <= |weights|
    ensures Before(weights, i) == weights[0] + Before(weights[1..], i - 1)
  {
    assert weights[..i][1..] == weights[1..][..i - 1];
  }

  lemma {:induction false} BeforeNext(weights: seq<nat>, i: nat)
    requires i < |weights|
    ensures Before(weights, i + 1) == Before(weights, i) + weights[i] <= Total(weights)
  {
    BeforeStep(weights, i + 1);
    if i > 0 {
      BeforeStep(weights, i);
      BeforeNext(weights[1..], i - 1);
    }
  }

  /** A candidate wins exactly the residues of its own slice of the total weight. */
  lemma {:induction false} WinnerSlice(weights: seq<nat>, residue: nat, i: nat)
    requires i < |weights| && residue < Total(weights)
    ensures Winner(weights, residue) == i <==> Before(weights, i) <= residue < Before(weights, i) + weights[i]
  {
    if i > 0 {
      BeforeStep(weights, i);
      if residue >= weights[0] {
        WinnerSlice(weights[1..], residue - weights[0], i - 1);
      }
    }
  }

  // ---- Exactness of rejection sampling ----

  /** Values below this bound are accepted. */
  function Limit(space: nat, total: nat): nat
    requires total > 0
  {
    space / total * total
  }

  predicate AtLeast(v: nat, lo: nat) { lo <= v }

  function Interval(lo: nat, hi: nat): set<nat> { set v: nat | v < hi && AtLeast(v, lo) }

  lemma {:induction false} IntervalSize(lo: nat, hi: nat)
    requires lo <= hi
    ensures |Interval(lo, hi)| == hi - lo
    decreases hi
  {
    if lo < hi {
      IntervalSize(lo, hi - 1);
      assert AtLeast(hi - 1, lo);
      assert Interval(lo, hi) == Interval(lo, hi - 1) + {hi - 1};
    } else {
      assert Interval(lo, hi) == {};
    }
  }

  predicate InSlice(v: nat, total: nat, a: nat, b: nat)
    requires total > 0
  {
    a <= v % total < b
  }

  /** The values below a limit whose residue lies in a slice. */
  function SliceValues(limit: nat, total: nat, a: nat, b: nat): set<nat>
    requires total > 0
  {
    set v: nat | v < limit && InSlice(v, total, a, b)
  }

  /** In q full rounds of the total weight every residue of the slice occurs q times. */
  lemma {:induction false} SliceCount(q: nat, limit: nat, total: nat, a: nat, width: nat)
    requires limit == q * total && a + width <= total && total > 0
    ensures |SliceValues(limit, total, a, a + width)| == q * width
    decreases q
  {
    if q == 0 {
      assert SliceValues(limit, total, a, a + width) == {};
    } else {
      OneMore(q, total);
      OneMore(q, width);
      SliceCount(q - 1, limit - total, total, a, width);
      LastRoundCount(q - 1, limit - total, total, a, width);
    }
  }

  lemma LastRoundCount(q: nat, base: nat, total: nat, a: nat, width: nat)
    requires base == q * total && a + width <= total && total > 0
    ensures |SliceValues(base + total, total, a, a + width)| == |SliceValues(base, total, a, a + width)| + width
  {
    var b := a + width;
    LastRound(q, base, total, a, b);
    IntervalSize(base + a, base + b);
    DisjointUnion(SliceValues(base, total, a, b), Interval(base + a, base + b));
  }

  lemma DisjointUnion(a: set<nat>, b: set<nat>)
    requires a !! b
    ensures |a + b| == |a| + |b|
  {
  }

  lemma OneMore(q: nat, x: nat)
    requires q > 0
    ensures q * x == (q - 1) * x + x
  {
  }

  lemma LastRound(q: nat, base: nat, total: nat, a: nat, b: nat)
    requires base == q * total && a <= b <= total && total > 0
    ensures SliceValues(base + total, total, a, b) == SliceValues(base, total, a, b) + Interval(base + a, base + b)
    ensures SliceValues(base, total, a, b) !! Interval(base + a, base + b)
  {
    forall v: nat | base <= v < base + total ensures v % total == v - base {
      DivModUnique(v, total, q, v - base);
    }
  }

  /** The accepted values that make candidate i win. */
  function WinningValues(weights: seq<nat>, limit: nat, i: nat): set<nat>
    requires Total(weights) > 0
  {
    set v: nat | v < limit && Winner(weights, v % Total(weights)) == i
  }

  lemma ShareOfRounds(weights: seq<nat>, q: nat, i: nat)
    requires i < |weights| && Total(weights) > 0
    ensures |WinningValues(weights, q * Total(weights), i)| == q * weights[i]
  {
    var a := Before(weights, i);
    BeforeNext(weights, i);
    SliceCount(q, q * Total(weights), Total(weights), a, weights[i]);
    WinnersAreSlice(weights, q * Total(weights), i);
  }

  /** No modulo bias: every candidate wins in exact proportion to its weight. */
  lemma ExactShare(weights: seq<nat>, space: nat, i: nat)
    requires i < |weights| && Total(weights) > 0
    ensures |WinningValues(weights, Limit(space, Total(weights)), i)| == space / Total(weights) * weights[i]
  {
    ShareOfRounds(weights, space / Total(weights), i);
  }

  lemma WinnersAreSlice(weights: seq<nat>, limit: nat, i: nat)
    requires i < |weights| && Total(weights) > 0
    ensures var a := Before(weights, i);
            WinningValues(weights, limit, i) == SliceValues(limit, Total(weights), a, a + weights[i])
  {
    var total, a := Total(weights), Before(weights, i);
    forall v: nat | v < limit ensures Winner(weights, v % total) == i <==> InSlice(v, total, a, a + weights[i]) {
      WinnerSlice(weights, v % total, i);
    }
  }

  // ---- Candidates ----

  datatype Candidate = Candidate(operator: nat, weight: nat)

  function OperatorOf(c: Candidate): nat { c.operator }

  function LeafOperator(l: Leaf): nat { l.operator }

  function Weights(cs: seq<Candidate>): (w: seq<nat>)
    ensures |w| == |cs| && forall i :: 0 <= i < |cs| ==> w[i] == cs[i].weight
  {
    seq(|cs|, i requires 0 <= i < |cs| => cs[i].weight)
  }

  function Operators(cs: seq<Candidate>): set<nat> { set k | 0 <= k < |cs| :: cs[k].operator }

  predicate Eligible(leaf: Leaf, role: Role, excluded: set<nat>) {
    role in leaf.roles && leaf.operator !in excluded && leaf.work > 0
  }

  function EligibleOperators(leaves: seq<Leaf>, role: Role, excluded: set<nat>): set<nat> {
    set leaf | leaf in leaves && Eligible(leaf, role, excluded) :: leaf.operator
  }

  /** The operator is listed for the role, with finalized work. */
  predicate Serves(leaves: seq<Leaf>, role: Role, operator: nat) {
    exists k :: 0 <= k < |leaves| && leaves[k].operator == operator && role in leaves[k].roles && leaves[k].work > 0
  }

  /** The work of the eligible operators together. */
  function TotalWork(leaves: seq<Leaf>, role: Role, excluded: set<nat>): nat {
    if leaves == [] then 0
    else (if Eligible(leaves[0], role, excluded) then leaves[0].work else 0) + TotalWork(leaves[1..], role, excluded)
  }

  /** The eligible operators in order, each weighted by its finalized work. */
  function CandidatesOf(leaves: seq<Leaf>, role: Role, excluded: set<nat>): seq<Candidate> {
    if leaves == [] then []
    else
      (if Eligible(leaves[0], role, excluded) then [Candidate(leaves[0].operator, leaves[0].work)] else [])
      + CandidatesOf(leaves[1..], role, excluded)
  }

  lemma {:induction false} CandidatesAppend(leaves: seq<Leaf>, leaf: Leaf, role: Role, excluded: set<nat>)
    ensures CandidatesOf(leaves + [leaf], role, excluded)
         == CandidatesOf(leaves, role, excluded)
            + (if Eligible(leaf, role, excluded) then [Candidate(leaf.operator, leaf.work)] else [])
  {
    if leaves == [] {
      assert [] + [leaf] == [leaf];
    } else {
      assert (leaves + [leaf])[1..] == leaves[1..] + [leaf];
      CandidatesAppend(leaves[1..], leaf, role, excluded);
    }
  }

  /** A candidate stands for exactly one eligible leaf. */
  lemma {:induction false} CandidateLeaf(leaves: seq<Leaf>, role: Role, excluded: set<nat>, i: nat) returns (k: nat)
    requires i < |CandidatesOf(leaves, role, excluded)|
    ensures k < |leaves| && role in leaves[k].roles && leaves[k].operator !in excluded && leaves[k].work > 0
    ensures CandidatesOf(leaves, role, excluded)[i] == Candidate(leaves[k].operator, leaves[k].work)
  {
    var first := Eligible(leaves[0], role, excluded);
    if first && i == 0 {
      return 0;
    }
    k := CandidateLeaf(leaves[1..], role, excluded, if first then i - 1 else i);
    k := k + 1;
  }

  /** An eligible leaf is a candidate, with its work as weight. */
  lemma {:induction false} LeafCandidate(leaves: seq<Leaf>, role: Role, excluded: set<nat>, k: nat) returns (i: nat)
    requires k < |leaves| && role in leaves[k].roles && leaves[k].operator !in excluded && leaves[k].work > 0
    ensures i < |CandidatesOf(leaves, role, excluded)|
    ensures CandidatesOf(leaves, role, excluded)[i] == Candidate(leaves[k].operator, leaves[k].work)
  {
    if k == 0 {
      return 0;
    }
    i := LeafCandidate(leaves[1..], role, excluded, k - 1);
    if Eligible(leaves[0], role, excluded) {
      i := i + 1;
    }
  }

  lemma StrictTail(leaves: seq<Leaf>)
    requires Strict(leaves, LeafOperator) && leaves != []
    ensures Strict(leaves[1..], LeafOperator)
    ensures forall k :: 0 <= k < |leaves| - 1 ==> leaves[0].operator < leaves[1..][k].operator
  {
    forall k | 0 <= k < |leaves| - 1 ensures leaves[0].operator < leaves[1..][k].operator {
      assert LeafOperator(leaves[0]) < LeafOperator(leaves[k + 1]);
    }
    forall i, j | 0 <= i < j < |leaves[1..]| ensures LeafOperator(leaves[1..][i]) < LeafOperator(leaves[1..][j]) {
      assert LeafOperator(leaves[i + 1]) < LeafOperator(leaves[j + 1]);
    }
  }

  lemma {:induction false} CandidatesStrict(leaves: seq<Leaf>, role: Role, excluded: set<nat>)
    requires Strict(leaves, LeafOperator)
    ensures Strict(CandidatesOf(leaves, role, excluded), OperatorOf)
  {
    if leaves != [] {
      StrictTail(leaves);
      CandidatesStrict(leaves[1..], role, excluded);
      var rest := CandidatesOf(leaves[1..], role, excluded);
      forall i | 0 <= i < |rest| ensures leaves[0].operator < OperatorOf(rest[i]) {
        var k := CandidateLeaf(leaves[1..], role, excluded, i);
      }
    }
  }

  lemma CandidateOperators(leaves: seq<Leaf>, role: Role, excluded: set<nat>)
    ensures Operators(CandidatesOf(leaves, role, excluded)) == EligibleOperators(leaves, role, excluded)
    ensures forall c :: c in CandidatesOf(leaves, role, excluded) ==> c.weight > 0
  {
    var cs := CandidatesOf(leaves, role, excluded);
    forall i | 0 <= i < |cs| ensures cs[i].operator in EligibleOperators(leaves, role, excluded) && cs[i].weight > 0 {
      var k := CandidateLeaf(leaves, role, excluded, i);
      assert leaves[k] in leaves;
    }
    forall leaf | leaf in leaves && Eligible(leaf, role, excluded) ensures leaf.operator in Operators(cs) {
      var k :| 0 <= k < |leaves| && leaves[k] == leaf;
      var i := LeafCandidate(leaves, role, excluded, k);
    }
  }

  /** The candidates' weights add up to the eligible work. */
  lemma {:induction false} CandidatesTotal(leaves: seq<Leaf>, role: Role, excluded: set<nat>)
    ensures Total(Weights(CandidatesOf(leaves, role, excluded))) == TotalWork(leaves, role, excluded)
  {
    if leaves != [] {
      CandidatesTotal(leaves[1..], role, excluded);
      var cs, rest := CandidatesOf(leaves, role, excluded), CandidatesOf(leaves[1..], role, excluded);
      if Eligible(leaves[0], role, excluded) {
        assert Weights(cs)[1..] == Weights(rest);
      } else {
        assert cs == rest;
      }
    }
  }

  function Without(cs: seq<Candidate>, i: nat): seq<Candidate>
    requires i < |cs|
  {
    cs[..i] + cs[i + 1..]
  }

  lemma {:induction false} ExcludeAbsent(leaves: seq<Leaf>, role: Role, excluded: set<nat>, o: nat)
    requires forall k :: 0 <= k < |leaves| ==> leaves[k].operator != o
    ensures CandidatesOf(leaves, role, excluded + {o}) == CandidatesOf(leaves, role, excluded)
  {
    if leaves != [] {
      ExcludeAbsent(leaves[1..], role, excluded, o);
    }
  }

  /** Taking a candidate out of the list is excluding its operator. */
  lemma {:induction false} WithoutIsExcluded(leaves: seq<Leaf>, role: Role, excluded: set<nat>, i: nat)
    requires Strict(leaves, LeafOperator) && i < |CandidatesOf(leaves, role, excluded)|
    ensures var cs := CandidatesOf(leaves, role, excluded);
            Without(cs, i) == CandidatesOf(leaves, role, excluded + {cs[i].operator})
  {
    var cs, rest := CandidatesOf(leaves, role, excluded), CandidatesOf(leaves[1..], role, excluded);
    var o := cs[i].operator;
    StrictTail(leaves);
    if Eligible(leaves[0], role, excluded) && i == 0 {
      ExcludeAbsent(leaves[1..], role, excluded, o);
      assert Without(cs, 0) == rest;
    } else {
      var j := if Eligible(leaves[0], role, excluded) then i - 1 else i;
      WithoutIsExcluded(leaves[1..], role, excluded, j);
      var k := CandidateLeaf(leaves[1..], role, excluded, j);
      WithoutTail(cs, rest, i, j);
    }
  }

  lemma WithoutTail(cs: seq<Candidate>, rest: seq<Candidate>, i: nat, j: nat)
    requires i < |cs| && j < |rest| && ((i == j && cs == rest) || (i == j + 1 && cs == [cs[0]] + rest))
    ensures Without(cs, i) == (if i == j then [] else [cs[0]]) + Without(rest, j)
  {
  }

  method Candidates(leaves: seq<Leaf>, role: Role, excluded: set<nat>) returns (cs: seq<Candidate>)
    ensures cs == CandidatesOf(leaves, role, excluded)
  {
    cs := [];
    for i := 0 to |leaves|
      invariant cs == CandidatesOf(leaves[..i], role, excluded)
    {
      CandidatesAppend(leaves[..i], leaves[i], role, excluded);
      assert leaves[..i + 1] == leaves[..i] + [leaves[i]];
      if Eligible(leaves[i], role, excluded) {
        cs := cs + [Candidate(leaves[i].operator, leaves[i].work)];
      }
    }
    assert leaves[..|leaves|] == leaves;
  }

  // ---- The draw ----

  type Oracle = (nat, nat) -> nat

  predicate Accepted(value: nat, space: nat, total: nat)
    requires total > 0
  {
    value < Limit(space, total)
  }

  /** The first accepted value of draw `index` makes this operator the winner. */
  ghost predicate Drawn(draw: Oracle, space: nat, cs: seq<Candidate>, index: nat, counter: nat, member: nat) {
    var total := Total(Weights(cs));
    && 0 < total <= space && counter < U64_LIMIT
    && Accepted(draw(index, counter), space, total)
    && (forall c :: 0 <= c < counter ==> !Accepted(draw(index, c), space, total))
    && member == cs[Winner(Weights(cs), draw(index, counter) % total)].operator
  }

  /** Every member was drawn by work among the eligible operators not drawn before. */
  ghost predicate DrawnByWork(leaves: seq<Leaf>, role: Role, excluded: set<nat>, draw: Oracle, space: nat,
                              members: seq<nat>, counters: seq<nat>)
  {
    && |members| == |counters|
    && forall k :: 0 <= k < |members| ==>
         Drawn(draw, space, CandidatesOf(leaves, role, excluded + Elements(members[..k])), k, counters[k], members[k])
  }

  /** The accepted values with which an operator wins. */
  function ValuesFor(cs: seq<Candidate>, space: nat, o: nat): set<nat>
    requires Total(Weights(cs)) > 0
  {
    var total := Total(Weights(cs));
    set v: nat | v < Limit(space, total) && cs[Winner(Weights(cs), v % total)].operator == o
  }

  /** An eligible operator wins with exactly floor(space / total work) times its work accepted values. */
  lemma WorkShare(leaves: seq<Leaf>, role: Role, excluded: set<nat>, space: nat, k: nat)
    requires Strict(leaves, LeafOperator) && k < |leaves| && Eligible(leaves[k], role, excluded)
    ensures TotalWork(leaves, role, excluded) > 0 && Total(Weights(CandidatesOf(leaves, role, excluded))) > 0
    ensures |ValuesFor(CandidatesOf(leaves, role, excluded), space, leaves[k].operator)|
         == space / TotalWork(leaves, role, excluded) * leaves[k].work
  {
    var cs := CandidatesOf(leaves, role, excluded);
    var i := LeafCandidate(leaves, role, excluded, k);
    BeforeNext(Weights(cs), i);
    CandidatesTotal(leaves, role, excluded);
    CandidatesStrict(leaves, role, excluded);
    ExactShare(Weights(cs), space, i);
    ValuesAreWinning(cs, space, i);
  }

  lemma ValuesAreWinning(cs: seq<Candidate>, space: nat, i: nat)
    requires Strict(cs, OperatorOf) && i < |cs| && Total(Weights(cs)) > 0
    ensures ValuesFor(cs, space, cs[i].operator) == WinningValues(Weights(cs), Limit(space, Total(Weights(cs))), i)
  {
    var total := Total(Weights(cs));
    forall v: nat | v < Limit(space, total)
      ensures cs[Winner(Weights(cs), v % total)].operator == cs[i].operator <==> Winner(Weights(cs), v % total) == i
    {
      var j := Winner(Weights(cs), v % total);
      assert j < i ==> OperatorOf(cs[j]) < OperatorOf(cs[i]);
      assert i < j ==> OperatorOf(cs[i]) < OperatorOf(cs[j]);
    }
  }

  /**
   The work-weighted draw without replacement: at every draw each operator still eligible wins with exactly
   floor(space / remaining work) times its work of the accepted values, and it is drawn exactly if the first accepted
   value is one of them.
   */
  lemma FairDraw(leaves: seq<Leaf>, role: Role, excluded: set<nat>, draw: Oracle, space: nat,
                 members: seq<nat>, counters: seq<nat>, k: nat, j: nat)
    requires Strict(leaves, LeafOperator) && DrawnByWork(leaves, role, excluded, draw, space, members, counters)
    requires k < |members| && j < |leaves| && Eligible(leaves[j], role, excluded + Elements(members[..k]))
    ensures var cs, work := CandidatesOf(leaves, role, excluded + Elements(members[..k])),
                            TotalWork(leaves, role, excluded + Elements(members[..k]));
            && work > 0 && Total(Weights(cs)) == work && draw(k, counters[k]) < Limit(space, work)
            && (members[k] == leaves[j].operator <==> draw(k, counters[k]) in ValuesFor(cs, space, leaves[j].operator))
            && |ValuesFor(cs, space, leaves[j].operator)| == space / work * leaves[j].work
  {
    CandidatesTotal(leaves, role, excluded + Elements(members[..k]));
    WorkShare(leaves, role, excluded + Elements(members[..k]), space, j);
  }

  /** Rejection sampling; it stops because the counter is a 64-bit number. */
  method Sample(draw: Oracle, space: nat, total: nat, index: nat) returns (r: Result<nat>)
    requires 0 < total
    ensures r.Ok? ==> r.value < U64_LIMIT && Accepted(draw(index, r.value), space, total)
    ensures r.Ok? ==> forall c :: 0 <= c < r.value ==> !Accepted(draw(index, c), space, total)
    ensures r.Err? ==> r.error == CounterOverflow && forall c :: 0 <= c < U64_LIMIT ==>
            !Accepted(draw(index, c), space, total)
  {
    var counter := 0;
    while counter < U64_LIMIT
      invariant counter <= U64_LIMIT && forall c :: 0 <= c < counter ==> !Accepted(draw(index, c), space, total)
    {
      if draw(index, counter) < Limit(space, total) {
        return Ok(counter);
      }
      counter := counter + 1;
    }
    r := Err(CounterOverflow);
  }

  /** The cumulative search always finds the winner. */
  method Position(cs: seq<Candidate>, residue: nat) returns (i: nat)
    requires residue < Total(Weights(cs))
    ensures i == Winner(Weights(cs), residue) < |cs|
  {
    var cumulative := 0;
    ghost var w := Weights(cs);
    i := 0;
    while i < |cs|
      invariant i <= |cs| && cumulative == Before(w, i) <= residue && i < |cs|
    {
      BeforeNext(w, i);
      assert i + 1 == |w| ==> w[..i + 1] == w;
      cumulative := cumulative + cs[i].weight;
      if residue < cumulative {
        WinnerSlice(w, residue, i);
        return;
      }
      i := i + 1;
    }
    assert false;
  }

  lemma TotalPositive(leaves: seq<Leaf>, role: Role, excluded: set<nat>)
    requires CandidatesOf(leaves, role, excluded) != []
    ensures TotalWork(leaves, role, excluded) > 0
  {
    var k := CandidateLeaf(leaves, role, excluded, 0);
    BeforeNext(Weights(CandidatesOf(leaves, role, excluded)), 0);
    CandidatesTotal(leaves, role, excluded);
  }

  lemma {:induction false} MoreExcluded(leaves: seq<Leaf>, role: Role, excluded: set<nat>, more: set<nat>)
    requires excluded <= more
    ensures TotalWork(leaves, role, more) <= TotalWork(leaves, role, excluded)
  {
    if leaves != [] {
      MoreExcluded(leaves[1..], role, excluded, more);
    }
  }

  /** Distinct eligible members so far, and as many candidates left as there were, less the members. */
  predicate Progress(leaves: seq<Leaf>, role: Role, excluded: set<nat>, members: seq<nat>) {
    && NoDuplicates(members) && Elements(members) <= EligibleOperators(leaves, role, excluded)
    && |CandidatesOf(leaves, role, excluded + Elements(members))| + |members| == |CandidatesOf(leaves, role, excluded)|
  }

  lemma ProgressStart(leaves: seq<Leaf>, role: Role, excluded: set<nat>)
    ensures Progress(leaves, role, excluded, []) && excluded + Elements([]) == excluded
  {
    assert Elements<nat>([]) == {} && excluded + {} == excluded;
  }

  lemma ProgressStep(leaves: seq<Leaf>, role: Role, excluded: set<nat>, members: seq<nat>, i: nat)
    requires Strict(leaves, LeafOperator) && Progress(leaves, role, excluded, members)
    requires i < |CandidatesOf(leaves, role, excluded + Elements(members))|
    ensures var cs := CandidatesOf(leaves, role, excluded + Elements(members));
            var o := cs[i].operator;
            && Progress(leaves, role, excluded, members + [o])
            && Without(cs, i) == CandidatesOf(leaves, role, excluded + Elements(members + [o]))
  {
    var out := excluded + Elements(members);
    var cs := CandidatesOf(leaves, role, out);
    var o := cs[i].operator;
    var k := CandidateLeaf(leaves, role, out, i);
    assert leaves[k] in leaves;
    ElementsAppend(members, o);
    assert excluded + Elements(members + [o]) == out + {o};
    WithoutIsExcluded(leaves, role, out, i);
    assert o !in Elements(members);
    DistinctAppend(members, o);
  }

  lemma DistinctAppend(members: seq<nat>, o: nat)
    requires NoDuplicates(members) && o !in Elements(members)
    ensures NoDuplicates(members + [o])
  {
    forall k | 0 <= k < |members| ensures members[k] != o {
      assert members[k] in Elements(members);
    }
  }

  lemma DrawStep(leaves: seq<Leaf>, role: Role, excluded: set<nat>, draw: Oracle, space: nat,
                 members: seq<nat>, counters: seq<nat>, o: nat, counter: nat)
    requires DrawnByWork(leaves, role, excluded, draw, space, members, counters)
    requires Drawn(draw, space, CandidatesOf(leaves, role, excluded + Elements(members)), |members|, counter, o)
    ensures DrawnByWork(leaves, role, excluded, draw, space, members + [o], counters + [counter])
  {
    var longer := members + [o];
    assert longer[..|members|] == members;
    forall k | 0 <= k < |members| ensures longer[..k] == members[..k] {
    }
  }

  /** Fails exactly for too few eligible operators, too much work or an exhausted counter; else draws by work. */
  method WeightedDraw(leaves: seq<Leaf>, role: Role, draw: Oracle, bits: nat, count: nat, excluded: set<nat>)
    returns (r: Result<(seq<nat>, seq<nat>)>)
    requires Strict(leaves, LeafOperator)
    ensures r == Err(InsufficientEligibleOperators) <==> |CandidatesOf(leaves, role, excluded)| < count
    ensures r == Err(EligibilityWeightOverflow) <==>
            |CandidatesOf(leaves, role, excluded)| >= count > 0 && BitLength(TotalWork(leaves, role, excluded)) > bits
    ensures r.Err? ==> r.error in {InsufficientEligibleOperators, EligibilityWeightOverflow, CounterOverflow}
    ensures r.Ok? ==> |r.value.0| == count && NoDuplicates(r.value.0)
                      && Elements(r.value.0) <= EligibleOperators(leaves, role, excluded)
    ensures r.Ok? ==> forall k :: 0 <= k < |r.value.0| ==>
            r.value.0[k] !in excluded && Serves(leaves, role, r.value.0[k])
    ensures r.Ok? ==> DrawnByWork(leaves, role, excluded, draw, Pow2(bits), r.value.0, r.value.1)
  {
    var candidates := Candidates(leaves, role, excluded);
    if |candidates| < count {
      return Err(InsufficientEligibleOperators);
    }
    var selected: seq<nat>, counters: seq<nat> := [], [];
    ProgressStart(leaves, role, excluded);
    for index := 0 to count
      invariant |selected| == |counters| == index && Progress(leaves, role, excluded, selected)
      invariant candidates == CandidatesOf(leaves, role, excluded + Elements(selected))
      invariant index > 0 ==> BitLength(TotalWork(leaves, role, excluded)) <= bits
      invariant DrawnByWork(leaves, role, excluded, draw, Pow2(bits), selected, counters)
    {
      var total := Total(Weights(candidates));
      RemainingWork(leaves, role, excluded, selected, bits);
      if total == 0 || BitLength(total) > bits {
        return Err(EligibilityWeightOverflow);
      }
      var sample := Sample(draw, Pow2(bits), total, index);
      if sample.Err? {
        return Err(sample.error);
      }
      var i := Position(candidates, draw(index, sample.value) % total);
      DrawStep(leaves, role, excluded, draw, Pow2(bits), selected, counters, candidates[i].operator, sample.value);
      ProgressStep(leaves, role, excluded, selected, i);
      selected, counters := selected + [candidates[i].operator], counters + [sample.value];
      candidates := Without(candidates, i);
    }
    r := Ok((selected, counters));
  }

  /** Work only falls as members leave, so it overflows at the first draw or never. */
  lemma RemainingWork(leaves: seq<Leaf>, role: Role, excluded: set<nat>, members: seq<nat>, bits: nat)
    requires CandidatesOf(leaves, role, excluded + Elements(members)) != []
    ensures var total := Total(Weights(CandidatesOf(leaves, role, excluded + Elements(members))));
            && total > 0 && (BitLength(total) <= bits <==> total < Pow2(bits))
            && (BitLength(TotalWork(leaves, role, excluded)) <= bits ==> BitLength(total) <= bits)
            && (members == [] ==> total == TotalWork(leaves, role, excluded))
  {
    var out := excluded + Elements(members);
    CandidatesTotal(leaves, role, out);
    TotalPositive(leaves, role, out);
    MoreExcluded(leaves, role, excluded, out);
    BitLengthRange(TotalWork(leaves, role, out), bits);
    BitLengthRange(TotalWork(leaves, role, excluded), bits);
    if members == [] {
      ProgressStart(leaves, role, excluded);
    }
  }
}
