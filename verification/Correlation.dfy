/**
 Correlated failures (crates/meshmine-committee-risk/src/lib.rs): groups of
 members that go down or are compromised together. The enumeration of group
 states is tied to the mean over independent groups, and the reported
 committee quantities are compared with each other.
 */
module Correlation {
  import opened Probability
  import opened ClosedForms
  import opened ExactProbability

  const MAX_CORRELATION_GROUPS: nat := 8

  datatype Group = Group(fraction: Exact, outage: Exact, compromise: Exact)

  datatype Error = ZeroDenominator | ProbabilityOutOfRange | InvalidCorrelationGroups | InvalidCommittee

  datatype Result<T> = Ok(value: T) | Err(error: Error)

  // ---- The mean over group states ----

  /** What a group contributes: the fraction of members in it, and the odds that it is down or compromised. */
  datatype Odds = Odds(fraction: real, outage: real, compromise: real) {
    predicate Valid() { fraction >= 0.0 && Split(compromise, outage, Normal()) }
    function Normal(): real { 1.0 - compromise - outage }
  }

  predicate AllOdds(odds: seq<Odds>) { forall i :: 0 <= i < |odds| ==> odds[i].Valid() }

  /** The members in groups i, i + 1, ... as a fraction of all members. */
  function Rest(odds: seq<Odds>, i: nat): real
    requires i <= |odds|
    decreases |odds| - i
  {
    if i == |odds| then 0.0 else odds[i].fraction + Rest(odds, i + 1)
  }

  lemma {:induction false} RestNonNegative(odds: seq<Odds>, i: nat)
    requires AllOdds(odds) && i <= |odds|
    ensures Rest(odds, i) >= 0.0
    decreases |odds| - i
  {
    if i < |odds| {
      RestNonNegative(odds, i + 1);
    }
  }

  lemma {:induction false} RestSplit(odds: seq<Odds>, k: nat, i: nat)
    requires i <= k <= |odds|
    ensures Rest(odds, i) == Rest(odds[..k], i) + Rest(odds, k)
    decreases k - i
  {
    if i < k {
      RestSplit(odds, k, i + 1);
    }
  }

  /** A quantity that depends on the compromised and the unreachable fractions. */
  type Quantity = (real, real) -> real

  predicate Domain(c: real, o: real) { c >= 0.0 && o >= 0.0 && c + o <= 1.0 }

  /** The mean of f over the states of groups i, i + 1, ..., each group compromised, down or normal. */
  function Average(odds: seq<Odds>, i: nat, c: real, o: real, f: Quantity): real
    requires i <= |odds|
    decreases |odds| - i
  {
    if i == |odds| then f(c, o)
    else
      Mix3(odds[i].compromise, odds[i].outage, odds[i].Normal(),
           Average(odds, i + 1, c + odds[i].fraction, o, f),
           Average(odds, i + 1, c, o + odds[i].fraction, f),
           Average(odds, i + 1, c, o, f))
  }

  /** The fractions reached from (c, o) stay within one. */
  predicate Room(odds: seq<Odds>, i: nat, c: real, o: real)
    requires i <= |odds|
  {
    c >= 0.0 && o >= 0.0 && c + o + Rest(odds, i) <= 1.0
  }

  lemma {:induction false} AverageMonotone(odds: seq<Odds>, i: nat, c: real, o: real, f: Quantity, g: Quantity)
    requires AllOdds(odds) && i <= |odds| && Room(odds, i, c, o)
    requires forall c, o :: Domain(c, o) ==> f(c, o) <= g(c, o)
    ensures Average(odds, i, c, o, f) <= Average(odds, i, c, o, g)
    decreases |odds| - i
  {
    if i == |odds| {
      assert Domain(c, o);
    } else {
      var x := odds[i].fraction;
      AverageMonotone(odds, i + 1, c + x, o, f, g);
      AverageMonotone(odds, i + 1, c, o + x, f, g);
      AverageMonotone(odds, i + 1, c, o, f, g);
      Mix3Monotone(odds[i].compromise, odds[i].outage, odds[i].Normal(),
                   Average(odds, i + 1, c + x, o, f), Average(odds, i + 1, c, o + x, f), Average(odds, i + 1, c, o, f),
                   Average(odds, i + 1, c + x, o, g), Average(odds, i + 1, c, o + x, g), Average(odds, i + 1, c, o, g));
    }
  }

  function Constant(k: real): Quantity { (c: real, o: real) => k }

  lemma {:induction false} AverageConstant(odds: seq<Odds>, i: nat, c: real, o: real, k: real)
    requires i <= |odds|
    ensures Average(odds, i, c, o, Constant(k)) == k
    decreases |odds| - i
  {
    if i < |odds| {
      var x := odds[i].fraction;
      AverageConstant(odds, i + 1, c + x, o, k);
      AverageConstant(odds, i + 1, c, o + x, k);
      AverageConstant(odds, i + 1, c, o, k);
      Mix3Constant(odds[i].compromise, odds[i].outage, k);
    }
  }

  lemma Mix3Constant(x: real, y: real, k: real)
    ensures Mix3(x, y, 1.0 - x - y, k, k, k) == k
  {
  }

  lemma {:induction false} AveragePlus(odds: seq<Odds>, i: nat, c: real, o: real, f: Quantity, g: Quantity, h: Quantity)
    requires i <= |odds|
    requires forall c, o :: h(c, o) == f(c, o) + g(c, o)
    ensures Average(odds, i, c, o, h) == Average(odds, i, c, o, f) + Average(odds, i, c, o, g)
    decreases |odds| - i
  {
    if i < |odds| {
      var x := odds[i].fraction;
      AveragePlus(odds, i + 1, c + x, o, f, g, h);
      AveragePlus(odds, i + 1, c, o + x, f, g, h);
      AveragePlus(odds, i + 1, c, o, f, g, h);
      Mix3Plus(odds[i].compromise, odds[i].outage, odds[i].Normal(),
               Average(odds, i + 1, c + x, o, f), Average(odds, i + 1, c, o + x, f), Average(odds, i + 1, c, o, f),
               Average(odds, i + 1, c + x, o, g), Average(odds, i + 1, c, o + x, g), Average(odds, i + 1, c, o, g));
    }
  }

  ghost predicate UnitOnDomain(f: Quantity) { forall c, o :: Domain(c, o) ==> Unit(f(c, o)) }

  predicate Sound(odds: seq<Odds>) { AllOdds(odds) && Rest(odds, 0) <= 1.0 }

  /** The mean over all groups. */
  function Mean(odds: seq<Odds>, f: Quantity): real { Average(odds, 0, 0.0, 0.0, f) }

  lemma MeanMonotone(odds: seq<Odds>, f: Quantity, g: Quantity)
    requires Sound(odds) && forall c, o :: Domain(c, o) ==> f(c, o) <= g(c, o)
    ensures Mean(odds, f) <= Mean(odds, g)
  {
    AverageMonotone(odds, 0, 0.0, 0.0, f, g);
  }

  lemma MeanConstant(odds: seq<Odds>, k: real)
    ensures Mean(odds, Constant(k)) == k
  {
    AverageConstant(odds, 0, 0.0, 0.0, k);
  }

  lemma MeanUnit(odds: seq<Odds>, f: Quantity)
    requires Sound(odds) && UnitOnDomain(f)
    ensures Unit(Mean(odds, f))
  {
    MeanConstant(odds, 0.0);
    MeanConstant(odds, 1.0);
    MeanMonotone(odds, Constant(0.0), f);
    MeanMonotone(odds, f, Constant(1.0));
  }

  // ---- What a profile must satisfy ----

  predicate ValidGroup(g: Group) {
    && Proper(g.fraction) && Proper(g.outage) && Proper(g.compromise)
    && Val(g.outage) + Val(g.compromise) <= 1.0
  }

  predicate AllValid(groups: seq<Group>) { forall i :: 0 <= i < |groups| ==> ValidGroup(groups[i]) }

  function OddsOf(g: Group): (r: Odds)
    requires ValidGroup(g)
    ensures r.Valid()
  {
    ProperUnit(g.fraction);
    ProperUnit(g.outage);
    ProperUnit(g.compromise);
    Odds(Val(g.fraction), Val(g.outage), Val(g.compromise))
  }

  function AllOddsOf(groups: seq<Group>): (r: seq<Odds>)
    requires AllValid(groups)
    ensures |r| == |groups| && AllOdds(r) && forall i :: 0 <= i < |r| ==> r[i] == OddsOf(groups[i])
  {
    seq(|groups|, i requires 0 <= i < |groups| => OddsOf(groups[i]))
  }

  predicate ValidGroups(groups: seq<Group>) {
    |groups| <= MAX_CORRELATION_GROUPS && AllValid(groups) && Sound(AllOddsOf(groups))
  }

  function ValidateProbability(p: Exact): (r: Result<()>)
    ensures r.Ok? <==> Proper(p)
  {
    if p.den == 0 then Err(ZeroDenominator)
    else if p.num > p.den then Err(ProbabilityOutOfRange)
    else Ok(())
  }

  /** The group checks accept exactly the valid profiles; in particular the capped running sum never hides an excess. */
  method ValidateGroups(groups: seq<Group>) returns (r: Result<()>)
    ensures r.Ok? <==> ValidGroups(groups)
  {
    if |groups| > MAX_CORRELATION_GROUPS {
      return Err(InvalidCorrelationGroups);
    }
    var total := Zero();
    for i := 0 to |groups|
      invariant Proper(total) && AllValid(groups[..i]) && Val(total) == Rest(AllOddsOf(groups[..i]), 0) <= 1.0
    {
      var g := groups[i];
      var first, second, third := ValidateProbability(g.fraction), ValidateProbability(g.outage),
        ValidateProbability(g.compromise);
      if first.Err? { return first; }
      if second.Err? { return second; }
      if third.Err? { return third; }
      SumExceedsOneVal(g.outage, g.compromise);
      if SumExceedsOne(g.outage, g.compromise) {
        return Err(InvalidCorrelationGroups);
      }
      SumExceedsOneVal(total, g.fraction);
      RestExtend(groups, i);
      if SumExceedsOne(total, g.fraction) {
        PrefixExceeds(groups, i + 1);
        return Err(InvalidCorrelationGroups);
      }
      total := Add(total, g.fraction);
    }
    assert groups[..|groups|] == groups;
    AtMostVal(total, One());
    if !AtMost(total, One()) {
      return Err(InvalidCorrelationGroups);
    }
    return Ok(());
  }

  lemma RestExtend(groups: seq<Group>, i: nat)
    requires i < |groups| && AllValid(groups[..i]) && ValidGroup(groups[i])
    ensures AllValid(groups[..i + 1])
    ensures Rest(AllOddsOf(groups[..i + 1]), 0) == Rest(AllOddsOf(groups[..i]), 0) + Val(groups[i].fraction)
  {
    assert forall j :: 0 <= j < i ==> groups[..i + 1][j] == groups[..i][j];
    var longer := AllOddsOf(groups[..i + 1]);
    assert longer[..i] == AllOddsOf(groups[..i]);
    RestSplit(longer, i, 0);
    assert Rest(longer, i) == longer[i].fraction + Rest(longer, i + 1);
  }

  lemma PrefixExceeds(groups: seq<Group>, k: nat)
    requires k <= |groups| && AllValid(groups[..k]) && Rest(AllOddsOf(groups[..k]), 0) > 1.0
    ensures !ValidGroups(groups)
  {
    if AllValid(groups) {
      var odds := AllOddsOf(groups);
      assert odds[..k] == AllOddsOf(groups[..k]);
      RestSplit(odds, k, 0);
      RestNonNegative(odds, k);
    }
  }

  // ---- Enumerating group states ----

  datatype Visit = Visit(weight: Exact, compromised: Exact, outage: Exact)

  predicate Good(v: Visit) {
    && Proper(v.weight) && Proper(v.compromised) && Proper(v.outage)
    && Val(v.compromised) + Val(v.outage) <= 1.0
  }

  predicate AllGood(vs: seq<Visit>) { forall i :: 0 <= i < |vs| ==> Good(vs[i]) }

  function NormalProbability(g: Group): (p: Exact)
    requires ValidGroup(g)
    ensures Proper(p)
  {
    Complement(Add(g.outage, g.compromise))
  }

  function Down(v: Visit, g: Group): (u: Visit)
    requires Proper(v.outage) && ValidGroup(g)
    ensures u.weight == v.weight && u.compromised == v.compromised && Proper(u.outage)
  {
    v.(outage := Add(v.outage, g.fraction))
  }

  function Taken(v: Visit, g: Group): (u: Visit)
    requires Proper(v.compromised) && ValidGroup(g)
    ensures u.weight == v.weight && Proper(u.compromised) && u.outage == v.outage
  {
    v.(compromised := Add(v.compromised, g.fraction))
  }

  /** The recursion of the enumeration; a state of probability zero is skipped. */
  function Visits(groups: seq<Group>, i: nat, v: Visit): seq<Visit>
    requires AllValid(groups) && i <= |groups| && Proper(v.weight) && Proper(v.compromised) && Proper(v.outage)
    decreases |groups| - i, 1
  {
    if i == |groups| then [v]
    else
      var g := groups[i];
      Branch(groups, i, v, NormalProbability(g)) + Branch(groups, i, Down(v, g), g.outage)
      + Branch(groups, i, Taken(v, g), g.compromise)
  }

  function Branch(groups: seq<Group>, i: nat, v: Visit, p: Exact): seq<Visit>
    requires AllValid(groups) && i < |groups| && Proper(v.weight) && Proper(v.compromised) && Proper(v.outage)
             && Proper(p)
    decreases |groups| - i, 0
  {
    if p == Zero() then [] else Visits(groups, i + 1, v.(weight := Multiply(v.weight, p)))
  }

  function Contribution(v: Visit, f: Quantity): real
    requires Good(v)
  {
    Times(Val(v.weight), f(Val(v.compromised), Val(v.outage)))
  }

  function Total(vs: seq<Visit>, f: Quantity): real
    requires AllGood(vs)
  {
    if vs == [] then 0.0 else Total(vs[..|vs| - 1], f) + Contribution(vs[|vs| - 1], f)
  }

  lemma {:induction false} TotalAppend(us: seq<Visit>, vs: seq<Visit>, f: Quantity)
    requires AllGood(us) && AllGood(vs)
    ensures Total(us + vs, f) == Total(us, f) + Total(vs, f)
    decreases |vs|
  {
    if vs == [] {
      assert us + vs == us;
    } else {
      TotalAppend(us, vs[..|vs| - 1], f);
      assert (us + vs)[..|us + vs| - 1] == us + vs[..|vs| - 1];
      assert (us + vs)[|us + vs| - 1] == vs[|vs| - 1];
    }
  }

  /** The visit's exact numbers stand for w, c and o, which leave room for groups i, i + 1, ... */
  predicate Stands(odds: seq<Odds>, i: nat, v: Visit, w: real, c: real, o: real)
    requires i <= |odds|
  {
    && Proper(v.weight) && Proper(v.compromised) && Proper(v.outage)
    && w == Val(v.weight) && c == Val(v.compromised) && o == Val(v.outage) && Room(odds, i, c, o)
  }

  /**
   The enumeration computes the mean: weights multiply, fractions add without
   capping, nothing is lost by skipping.
   */
  lemma {:induction false} VisitsTotal(groups: seq<Group>, odds: seq<Odds>, i: nat, v: Visit, f: Quantity,
                                       w: real, c: real, o: real)
    requires AllValid(groups) && odds == AllOddsOf(groups) && i <= |groups| && Stands(odds, i, v, w, c, o)
    ensures AllGood(Visits(groups, i, v))
    ensures Total(Visits(groups, i, v), f) == Times(w, Average(odds, i, c, o, f))
    decreases |groups| - i, 1
  {
    if i == |groups| {
      Leaf(v, f);
    } else {
      var g := groups[i];
      StateRoom(groups, odds, i, v, w, c, o);
      BranchTotal(groups, odds, i, v, NormalProbability(g), f, w, c, o, odds[i].Normal());
      BranchTotal(groups, odds, i, Down(v, g), g.outage, f, w, c, o + odds[i].fraction, odds[i].outage);
      BranchTotal(groups, odds, i, Taken(v, g), g.compromise, f, w, c + odds[i].fraction, o, odds[i].compromise);
      JoinBranches(odds, i, f, w, c, o,
                   Branch(groups, i, v, NormalProbability(g)), Branch(groups, i, Down(v, g), g.outage),
                   Branch(groups, i, Taken(v, g), g.compromise));
    }
  }

  lemma Leaf(v: Visit, f: Quantity)
    requires Good(v)
    ensures AllGood([v]) && Total([v], f) == Contribution(v, f)
  {
    assert [v][..0] == [];
  }

  predicate TotalIs(vs: seq<Visit>, f: Quantity, w: real, x: real, a: real) {
    AllGood(vs) && Total(vs, f) == Times(Times(w, x), a)
  }

  lemma JoinBranches(odds: seq<Odds>, i: nat, f: Quantity, w: real, c: real, o: real,
                     us: seq<Visit>, vs: seq<Visit>, ws: seq<Visit>)
    requires i < |odds|
    requires TotalIs(us, f, w, odds[i].Normal(), Average(odds, i + 1, c, o, f))
    requires TotalIs(vs, f, w, odds[i].outage, Average(odds, i + 1, c, o + odds[i].fraction, f))
    requires TotalIs(ws, f, w, odds[i].compromise, Average(odds, i + 1, c + odds[i].fraction, o, f))
    ensures AllGood(us + vs + ws) && Total(us + vs + ws, f) == Times(w, Average(odds, i, c, o, f))
  {
    ThreeStates(us, vs, ws, f, w, odds[i].compromise, odds[i].outage, odds[i].Normal(),
                Average(odds, i + 1, c + odds[i].fraction, o, f), Average(odds, i + 1, c, o + odds[i].fraction, f),
                Average(odds, i + 1, c, o, f));
  }

  lemma StateRoom(groups: seq<Group>, odds: seq<Odds>, i: nat, v: Visit, w: real, c: real, o: real)
    requires AllValid(groups) && odds == AllOddsOf(groups) && i < |groups| && Stands(odds, i, v, w, c, o)
    ensures Val(NormalProbability(groups[i])) == odds[i].Normal()
    ensures Val(groups[i].outage) == odds[i].outage && Val(groups[i].compromise) == odds[i].compromise
    ensures Stands(odds, i + 1, v, w, c, o)
    ensures Stands(odds, i + 1, Down(v, groups[i]), w, c, o + odds[i].fraction)
    ensures Stands(odds, i + 1, Taken(v, groups[i]), w, c + odds[i].fraction, o)
  {
    RestNonNegative(odds, i + 1);
  }

  lemma ThreeStates(us: seq<Visit>, vs: seq<Visit>, ws: seq<Visit>, f: Quantity,
                    w: real, x: real, y: real, z: real, a: real, b: real, c: real)
    requires TotalIs(us, f, w, z, c) && TotalIs(vs, f, w, y, b) && TotalIs(ws, f, w, x, a)
    ensures Total(us + vs + ws, f) == Times(w, Mix3(x, y, z, a, b, c))
  {
    TotalAppend(us, vs, f);
    TotalAppend(us + vs, ws, f);
    Mix3Scaled(w, x, y, z, a, b, c);
  }

  lemma Mix3Scaled(w: real, x: real, y: real, z: real, a: real, b: real, c: real)
    ensures Times(Times(w, z), c) + Times(Times(w, y), b) + Times(Times(w, x), a) == Times(w, Mix3(x, y, z, a, b, c))
  {
  }

  lemma BranchTotal(groups: seq<Group>, odds: seq<Odds>, i: nat, v: Visit, p: Exact, f: Quantity,
                    w: real, c: real, o: real, x: real)
    requires AllValid(groups) && odds == AllOddsOf(groups) && i < |groups| && Stands(odds, i + 1, v, w, c, o)
    requires Proper(p) && x == Val(p)
    ensures TotalIs(Branch(groups, i, v, p), f, w, x, Average(odds, i + 1, c, o, f))
    decreases |groups| - i, 0
  {
    if p == Zero() {
      RatioUnit(0, 1);
    } else {
      VisitsTotal(groups, odds, i + 1, v.(weight := Multiply(v.weight, p)), f, Times(w, x), c, o);
    }
  }

  function AllVisits(groups: seq<Group>): seq<Visit>
    requires AllValid(groups)
  {
    Visits(groups, 0, Visit(One(), Zero(), Zero()))
  }

  /** Partial totals of a quantity within [0, 1] never reach the cap. */
  lemma {:induction false} TotalPrefix(vs: seq<Visit>, k: nat, f: Quantity)
    requires AllGood(vs) && UnitOnDomain(f) && k <= |vs|
    ensures AllGood(vs[..k])
    ensures 0.0 <= Total(vs[..k], f) <= Total(vs, f)
    decreases |vs|
  {
    if |vs| == 0 {
    } else {
      var last := vs[|vs| - 1];
      ContributionUnit(last, f);
      if k == |vs| {
        assert vs[..k] == vs;
        TotalPrefix(vs[..|vs| - 1], |vs| - 1, f);
        assert vs[..|vs| - 1][..|vs| - 1] == vs[..|vs| - 1];
      } else {
        TotalPrefix(vs[..|vs| - 1], k, f);
        assert vs[..|vs| - 1][..k] == vs[..k];
      }
    }
  }

  lemma ContributionUnit(v: Visit, f: Quantity)
    requires Good(v) && UnitOnDomain(f)
    ensures Unit(Contribution(v, f)) && Domain(Val(v.compromised), Val(v.outage))
  {
    ProperUnit(v.weight);
    ProperUnit(v.compromised);
    ProperUnit(v.outage);
    ProductUnit(Val(v.weight), f(Val(v.compromised), Val(v.outage)));
  }

  /** What one visit adds to the running result. */
  lemma TotalStep(groups: seq<Group>, k: nat, f: Quantity)
    requires ValidGroups(groups) && UnitOnDomain(f) && k < |AllVisits(groups)|
    ensures var vs := AllVisits(groups);
            && AllGood(vs)
            && Domain(Val(vs[k].compromised), Val(vs[k].outage))
            && AllGood(vs[..k + 1])
            && Total(vs[..k + 1], f) == Total(vs[..k], f) + Contribution(vs[k], f) <= 1.0
            && 0.0 <= Total(vs[..k], f) && Unit(Contribution(vs[k], f))
  {
    var vs := AllVisits(groups);
    VisitsMean(groups, f);
    TotalPrefix(vs, k, f);
    TotalPrefix(vs, k + 1, f);
    ContributionUnit(vs[k], f);
    assert vs[..k + 1][..k] == vs[..k];
    MeanUnit(AllOddsOf(groups), f);
  }

  lemma VisitsMean(groups: seq<Group>, f: Quantity)
    requires ValidGroups(groups)
    ensures AllGood(AllVisits(groups))
    ensures Total(AllVisits(groups), f) == Mean(AllOddsOf(groups), f)
  {
    VisitsTotal(groups, AllOddsOf(groups), 0, Visit(One(), Zero(), Zero()), f, 1.0, 0.0, 0.0);
  }
}
