/**
 The reported committee risks (crates/meshmine-committee-risk/src/lib.rs): each
 is the mean, over correlation-group states, of a committee probability, and
 the report orders them the way an operator relies on.
 */
module Report {
  import opened Wrappers
  import opened Probability
  import opened ExactProbability
  import opened Correlation
  import Risk

  datatype Profile = Profile(adversarial: Exact, online: Exact, groups: seq<Group>)

  predicate ValidProfile(profile: Profile) {
    Proper(profile.adversarial) && Proper(profile.online) && ValidGroups(profile.groups)
  }

  /** A member is adversarial if eligible as such, or honest and in a compromised group. */
  function Adversarial(a: real, c: real): real { a + Times(1.0 - a, c) }

  /** A member is honest, reachable and online. */
  function HonestOnline(a: real, online: real, c: real, o: real): real {
    Times(Times(1.0 - a, online), 1.0 - (c + o))
  }

  lemma MemberOdds(a: real, online: real, c: real, o: real)
    requires Unit(a) && Unit(online) && Domain(c, o)
    ensures a <= Adversarial(a, c) <= 1.0 && Unit(HonestOnline(a, online, c, o))
    ensures Adversarial(a, c) + HonestOnline(a, online, c, o) <= 1.0
  {
    ProductUnit(1.0 - a, c);
    ProductUnit(1.0 - a, online);
    ProductUnit(Times(1.0 - a, online), 1.0 - (c + o));
    ProductNonNegative((1.0 - a) - Times(1.0 - a, online), 1.0 - (c + o));
    ProductNonNegative(1.0 - a, o);
    Complementary(1.0 - a, online, c, o);
  }

  lemma Complementary(b: real, online: real, c: real, o: real)
    ensures Times(b, c) + Times(Times(b, online), 1.0 - (c + o))
         == b - b * o - (b - Times(b, online)) * (1.0 - (c + o))
  {
  }

  function CaptureGiven(n: nat, t: int, a: real): Quantity {
    (c: real, o: real) => Tail(n, t, Adversarial(a, c))
  }

  function TooFewGiven(n: nat, t: int, a: real, online: real): Quantity {
    (c: real, o: real) => 1.0 - Tail(n, t, HonestOnline(a, online, c, o))
  }

  function JointGiven(s: nat, n1: nat, t1: int, n2: nat, t2: int, a: real): Quantity {
    (c: real, o: real) => Joint(s, n1, t1, n2, t2, Adversarial(a, c))
  }

  function BlockGiven(n: nat, ta: int, th: int, a: real, online: real): Quantity {
    (c: real, o: real) => BlockOf(n, ta, th, Adversarial(a, c), HonestOnline(a, online, c, o))
  }

  function BlockOf(n: nat, ta: int, th: int, x: real, y: real): real { Block(n, ta, th, x, y, 1.0 - x - y) }

  lemma CaptureUnit(n: nat, t: int, a: real)
    requires Unit(a)
    ensures UnitOnDomain(CaptureGiven(n, t, a))
  {
    forall c, o | Domain(c, o) ensures Unit(CaptureGiven(n, t, a)(c, o)) {
      MemberOdds(a, 1.0, c, o);
      TailUnit(n, t, Adversarial(a, c));
    }
  }

  lemma TooFewUnit(n: nat, t: int, a: real, online: real)
    requires Unit(a) && Unit(online)
    ensures UnitOnDomain(TooFewGiven(n, t, a, online))
  {
    forall c, o | Domain(c, o) ensures Unit(TooFewGiven(n, t, a, online)(c, o)) {
      MemberOdds(a, online, c, o);
      TailUnit(n, t, HonestOnline(a, online, c, o));
    }
  }

  lemma JointGivenUnit(s: nat, n1: nat, t1: int, n2: nat, t2: int, a: real)
    requires Unit(a)
    ensures UnitOnDomain(JointGiven(s, n1, t1, n2, t2, a))
  {
    forall c, o | Domain(c, o) ensures Unit(JointGiven(s, n1, t1, n2, t2, a)(c, o)) {
      MemberOdds(a, 1.0, c, o);
      JointUnit(s, n1, t1, n2, t2, Adversarial(a, c));
    }
  }

  lemma BlockGivenUnit(n: nat, ta: int, th: int, a: real, online: real)
    requires Unit(a) && Unit(online)
    ensures UnitOnDomain(BlockGiven(n, ta, th, a, online))
  {
    forall c, o | Domain(c, o) ensures Unit(BlockGiven(n, ta, th, a, online)(c, o)) {
      MemberOdds(a, online, c, o);
      var (x, y) := (Adversarial(a, c), HonestOnline(a, online, c, o));
      BlockUnit(n, ta, th, x, y, 1.0 - x - y);
    }
  }

  // ---- Evaluating the quantities exactly ----

  method EffectiveAdversarial(a: Exact, v: Visit) returns (r: Exact)
    requires Proper(a) && Good(v)
    ensures Proper(r) && Val(r) == Adversarial(Val(a), Val(v.compromised))
  {
    ProperUnit(a);
    ProperUnit(v.compromised);
    ProductUnit(1.0 - Val(a), Val(v.compromised));
    r := Add(a, Multiply(Complement(a), v.compromised));
  }

  method EffectiveHonest(a: Exact, online: Exact, v: Visit) returns (r: Exact)
    requires Proper(a) && Proper(online) && Good(v)
    ensures Proper(r) && Val(r) == HonestOnline(Val(a), Val(online), Val(v.compromised), Val(v.outage))
  {
    var unavailable := Add(v.compromised, v.outage);
    r := Multiply(Multiply(Complement(a), online), Complement(unavailable));
  }

  /** result := result.add(weight.multiply(probability)) without reaching the cap. */
  method Weigh(total: Exact, v: Visit, p: Exact) returns (r: Exact)
    requires Proper(total) && Good(v) && Proper(p) && Val(total) >= 0.0
    requires Val(total) + Times(Val(v.weight), Val(p)) <= 1.0
    ensures Proper(r) && Val(r) == Val(total) + Times(Val(v.weight), Val(p))
  {
    r := Risk.Accumulate(total, Multiply(v.weight, p));
  }

  datatype TailKind = AdversarialTail | HonestOnlineFailure

  function TailQuantity(profile: Profile, n: nat, t: nat, kind: TailKind): Quantity
    requires ValidProfile(profile)
  {
    match kind
    case AdversarialTail => CaptureGiven(n, t, Val(profile.adversarial))
    case HonestOnlineFailure => TooFewGiven(n, t, Val(profile.adversarial), Val(profile.online))
  }

  method TailOf(profile: Profile, n: nat, t: nat, kind: TailKind, v: Visit) returns (p: Exact)
    requires ValidProfile(profile) && Good(v)
    ensures Proper(p) && Val(p) == TailQuantity(profile, n, t, kind)(Val(v.compromised), Val(v.outage))
  {
    match kind
    case AdversarialTail =>
      var effective := EffectiveAdversarial(profile.adversarial, v);
      p := Risk.BinomialTail(n, t, effective);
    case HonestOnlineFailure =>
      var honest := EffectiveHonest(profile.adversarial, profile.online, v);
      var enough := Risk.BinomialTail(n, t, honest);
      p := Complement(enough);
  }

  method CorrelatedTail(profile: Profile, n: nat, t: nat, kind: TailKind) returns (r: Exact)
    requires ValidProfile(profile)
    ensures Proper(r) && Val(r) == Mean(AllOddsOf(profile.groups), TailQuantity(profile, n, t, kind))
  {
    ghost var f := TailQuantity(profile, n, t, kind);
    ProperUnit(profile.adversarial);
    ProperUnit(profile.online);
    CaptureUnit(n, t, Val(profile.adversarial));
    TooFewUnit(n, t, Val(profile.adversarial), Val(profile.online));
    var vs := AllVisits(profile.groups);
    VisitsMean(profile.groups, f);
    r := Zero();
    for k := 0 to |vs|
      invariant Proper(r) && AllGood(vs[..k]) && Val(r) == Total(vs[..k], f)
    {
      TotalStep(profile.groups, k, f);
      var p := TailOf(profile, n, t, kind, vs[k]);
      r := Weigh(r, vs[k], p);
    }
    assert vs[..|vs|] == vs;
  }

  method CorrelatedJointTail(
      profile: Profile, firstSize: nat, firstThreshold: nat, secondSize: nat, secondThreshold: nat,
      shared: nat) returns (r: Exact)
    requires ValidProfile(profile) && shared <= firstSize && shared <= secondSize
    ensures Proper(r)
    ensures Val(r) == Mean(AllOddsOf(profile.groups),
                           JointGiven(shared, firstSize - shared, firstThreshold, secondSize - shared, secondThreshold,
                                      Val(profile.adversarial)))
  {
    ghost var f := JointGiven(shared, firstSize - shared, firstThreshold, secondSize - shared, secondThreshold,
                              Val(profile.adversarial));
    ProperUnit(profile.adversarial);
    JointGivenUnit(shared, firstSize - shared, firstThreshold, secondSize - shared, secondThreshold,
                   Val(profile.adversarial));
    var vs := AllVisits(profile.groups);
    VisitsMean(profile.groups, f);
    r := Zero();
    for k := 0 to |vs|
      invariant Proper(r) && AllGood(vs[..k]) && Val(r) == Total(vs[..k], f)
    {
      TotalStep(profile.groups, k, f);
      var effective := EffectiveAdversarial(profile.adversarial, vs[k]);
      var p := Risk.JointBinomialTail(firstSize, firstThreshold, secondSize, secondThreshold, shared, effective);
      r := Weigh(r, vs[k], p);
    }
    assert vs[..|vs|] == vs;
  }

  method CorrelatedCombinedBlock(profile: Profile, n: nat, ta: nat, th: nat) returns (r: Exact)
    requires ValidProfile(profile)
    ensures Proper(r)
    ensures Val(r) == Mean(AllOddsOf(profile.groups),
                           BlockGiven(n, ta, th, Val(profile.adversarial), Val(profile.online)))
  {
    ghost var f := BlockGiven(n, ta, th, Val(profile.adversarial), Val(profile.online));
    ProperUnit(profile.adversarial);
    ProperUnit(profile.online);
    BlockGivenUnit(n, ta, th, Val(profile.adversarial), Val(profile.online));
    var vs := AllVisits(profile.groups);
    VisitsMean(profile.groups, f);
    r := Zero();
    for k := 0 to |vs|
      invariant Proper(r) && AllGood(vs[..k]) && Val(r) == Total(vs[..k], f)
    {
      TotalStep(profile.groups, k, f);
      var p := BlockFor(profile, n, ta, th, vs[k]);
      r := Weigh(r, vs[k], p);
    }
    assert vs[..|vs|] == vs;
  }

  method BlockFor(profile: Profile, n: nat, ta: nat, th: nat, v: Visit) returns (p: Exact)
    requires ValidProfile(profile) && Good(v) && Domain(Val(v.compromised), Val(v.outage))
    ensures Proper(p)
    ensures Val(p) == BlockGiven(n, ta, th, Val(profile.adversarial), Val(profile.online))(Val(v.compromised),
                                                                                           Val(v.outage))
  {
    var x := EffectiveAdversarial(profile.adversarial, v);
    var y := EffectiveHonest(profile.adversarial, profile.online, v);
    ProperUnit(profile.adversarial);
    ProperUnit(profile.online);
    MemberOdds(Val(profile.adversarial), Val(profile.online), Val(v.compromised), Val(v.outage));
    p := Risk.CategoricalBlockProbability(n, ta, th, x, y);
  }

  // ---- What the report's numbers guarantee ----

  /** Group failures only add capture risk to the independent-member figure. */
  lemma CaptureAtLeastBinomial(odds: seq<Odds>, n: nat, t: int, a: real)
    requires Sound(odds) && Unit(a)
    ensures Mean(odds, CaptureGiven(n, t, a)) >= Tail(n, t, a)
  {
    var f, k := CaptureGiven(n, t, a), Constant(Tail(n, t, a));
    forall c, o | Domain(c, o) ensures k(c, o) <= f(c, o) {
      MemberOdds(a, 1.0, c, o);
      TailMonotone(n, t, a, Adversarial(a, c));
    }
    MeanMonotone(odds, k, f);
    MeanConstant(odds, Tail(n, t, a));
  }

  /** The combined block probability dominates each cause of blocking and is at most their sum. */
  lemma CombinedBlockBounds(odds: seq<Odds>, n: nat, ta: int, th: int, a: real, online: real)
    requires Sound(odds) && Unit(a) && Unit(online)
    ensures Mean(odds, CaptureGiven(n, ta, a)) <= Mean(odds, BlockGiven(n, ta, th, a, online))
    ensures Mean(odds, TooFewGiven(n, th, a, online)) <= Mean(odds, BlockGiven(n, ta, th, a, online))
    ensures Mean(odds, BlockGiven(n, ta, th, a, online))
         <= Mean(odds, CaptureGiven(n, ta, a)) + Mean(odds, TooFewGiven(n, th, a, online))
  {
    var f, g, h := CaptureGiven(n, ta, a), TooFewGiven(n, th, a, online), BlockGiven(n, ta, th, a, online);
    var sum: Quantity := (c: real, o: real) => f(c, o) + g(c, o);
    forall c, o | Domain(c, o) ensures f(c, o) <= h(c, o) && g(c, o) <= h(c, o) <= sum(c, o) {
      BlockBoundsGiven(n, ta, th, a, online, c, o);
    }
    MeanMonotone(odds, f, h);
    MeanMonotone(odds, g, h);
    MeanMonotone(odds, h, sum);
    AveragePlus(odds, 0, 0.0, 0.0, f, g, sum);
  }

  lemma BlockBoundsGiven(n: nat, ta: int, th: int, a: real, online: real, c: real, o: real)
    requires Unit(a) && Unit(online) && Domain(c, o)
    ensures var (f, g, h) := (CaptureGiven(n, ta, a)(c, o), TooFewGiven(n, th, a, online)(c, o),
                              BlockGiven(n, ta, th, a, online)(c, o));
            f <= h && g <= h <= f + g
  {
    MemberOdds(a, online, c, o);
    var (x, y) := (Adversarial(a, c), HonestOnline(a, online, c, o));
    BlockAtLeastAdversarial(n, ta, th, x, y, 1.0 - x - y);
    BlockAtLeastTooFew(n, ta, th, x, y, 1.0 - x - y);
    BlockAtMostSum(n, ta, th, x, y, 1.0 - x - y);
  }

  /** Overlap and shared failures never make joint capture less likely than the independent product. */
  lemma OverlapAtLeastIndependent(odds: seq<Odds>, s: nat, n1: nat, t1: int, n2: nat, t2: int, a: real)
    requires Sound(odds) && Unit(a)
    ensures Mean(odds, JointGiven(s, n1, t1, n2, t2, a)) >= Times(Tail(n1 + s, t1, a), Tail(n2 + s, t2, a))
  {
    var product := Times(Tail(n1 + s, t1, a), Tail(n2 + s, t2, a));
    var f, k := JointGiven(s, n1, t1, n2, t2, a), Constant(product);
    forall c, o | Domain(c, o) ensures k(c, o) <= f(c, o) {
      MemberOdds(a, 1.0, c, o);
      var x := Adversarial(a, c);
      JointAssociation(s, n1, t1, n2, t2, x);
      TailMonotone(n1 + s, t1, a, x);
      TailMonotone(n2 + s, t2, a, x);
      TailUnit(n1 + s, t1, a);
      TailUnit(n2 + s, t2, a);
      ProductMonotone(Tail(n1 + s, t1, a), Tail(n2 + s, t2, a), Tail(n1 + s, t1, x), Tail(n2 + s, t2, x));
    }
    MeanMonotone(odds, k, f);
    MeanConstant(odds, product);
  }

  lemma ProductMonotone(x: real, y: real, x': real, y': real)
    requires 0.0 <= x <= x' && 0.0 <= y <= y'
    ensures Times(x, y) <= Times(x', y')
  {
    ProductNonNegative(x' - x, y);
    ProductNonNegative(x', y' - y);
  }

  // ---- Reports ----

  datatype Role = Role(size: nat, certificate: nat, opening: nat, population: Option<Risk.Population>)

  predicate ValidRole(role: Role) {
    && 0 < role.certificate <= role.size && 0 < role.opening <= role.size
    && (role.population.Some? ==> Risk.ValidPopulation(role.population.value, role.size))
  }

  /** The figures for one threshold (certificate or opening). */
  datatype ThresholdReport = ThresholdReport(
    binomialCapture: Exact,
    hypergeometricCapture: Option<Exact>,
    correlatedCapture: Exact,
    adversarialBlock: Exact,
    tooFewHonestOnline: Exact,
    combinedBlock: Exact)

  ghost predicate Reports(profile: Profile, role: Role, t: nat, r: ThresholdReport)
    requires ValidProfile(profile) && ValidRole(role) && 0 < t <= role.size
  {
    var (a, online, odds) := (Val(profile.adversarial), Val(profile.online), AllOddsOf(profile.groups));
    && Proper(r.binomialCapture) && Proper(r.correlatedCapture) && Proper(r.adversarialBlock)
    && Proper(r.tooFewHonestOnline) && Proper(r.combinedBlock)
    && Val(r.binomialCapture) == Tail(role.size, t, a)
    && Val(r.correlatedCapture) == Mean(odds, CaptureGiven(role.size, t, a))
    && Val(r.adversarialBlock) == Mean(odds, CaptureGiven(role.size, role.size - t + 1, a))
    && Val(r.tooFewHonestOnline) == Mean(odds, TooFewGiven(role.size, t, a, online))
    && Val(r.combinedBlock) == Mean(odds, BlockGiven(role.size, role.size - t + 1, t, a, online))
    && (r.hypergeometricCapture.Some? <==> role.population.Some?)
    && (role.population.Some? ==>
          && Proper(r.hypergeometricCapture.value)
          && Val(r.hypergeometricCapture.value) == Risk.HypergeometricProbability(role.population.value, role.size, t))
  }

  /** Whatever the thresholds and groups, the reported figures are ordered. */
  lemma ReportOrdered(profile: Profile, role: Role, t: nat, r: ThresholdReport)
    requires ValidProfile(profile) && ValidRole(role) && 0 < t <= role.size && Reports(profile, role, t, r)
    ensures Val(r.binomialCapture) <= Val(r.correlatedCapture)
    ensures Val(r.adversarialBlock) <= Val(r.combinedBlock) && Val(r.tooFewHonestOnline) <= Val(r.combinedBlock)
    ensures Val(r.combinedBlock) <= Val(r.adversarialBlock) + Val(r.tooFewHonestOnline)
  {
    var odds := AllOddsOf(profile.groups);
    ProperUnit(profile.adversarial);
    ProperUnit(profile.online);
    CaptureAtLeastBinomial(odds, role.size, t, Val(profile.adversarial));
    CombinedBlockBounds(odds, role.size, role.size - t + 1, t, Val(profile.adversarial), Val(profile.online));
  }

  method AssessThreshold(profile: Profile, role: Role, t: nat) returns (r: ThresholdReport)
    requires ValidProfile(profile) && ValidRole(role) && 0 < t <= role.size
    ensures Reports(profile, role, t, r)
  {
    var binomial := Risk.BinomialTail(role.size, t, profile.adversarial);
    var hypergeometric: Option<Exact> := None;
    if role.population.Some? {
      var tail := Risk.HypergeometricTail(role.population.value, role.size, t);
      hypergeometric := Some(tail.value);
    }
    var correlated := CorrelatedTail(profile, role.size, t, AdversarialTail);
    var adversarialBlock := CorrelatedTail(profile, role.size, role.size - t + 1, AdversarialTail);
    var tooFew := CorrelatedTail(profile, role.size, t, HonestOnlineFailure);
    var combined := CorrelatedCombinedBlock(profile, role.size, role.size - t + 1, t);
    r := ThresholdReport(binomial, hypergeometric, correlated, adversarialBlock, tooFew, combined);
  }

  function Maximum(p: Exact, q: Exact): Exact { if AtMost(q, p) then p else q }

  predicate Dominates(p: Exact, r: ThresholdReport)
    requires Positive(p) && Positive(r.binomialCapture) && Positive(r.correlatedCapture)
    requires r.hypergeometricCapture.Some? ==> Positive(r.hypergeometricCapture.value)
  {
    && Val(r.correlatedCapture) <= Val(p) && Val(r.binomialCapture) <= Val(p)
    && (r.hypergeometricCapture.Some? ==> Val(r.hypergeometricCapture.value) <= Val(p))
  }

  function Larger(x: real, y: real): real { if x >= y then x else y }

  /** The chance that a draw of the role captures one of its thresholds, in the worse of the assessed models. */
  ghost function CaptureRisk(profile: Profile, role: Role): real
    requires ValidProfile(profile) && ValidRole(role)
  {
    var (a, odds) := (Val(profile.adversarial), AllOddsOf(profile.groups));
    var correlated := Larger(Mean(odds, CaptureGiven(role.size, role.certificate, a)),
                             Mean(odds, CaptureGiven(role.size, role.opening, a)));
    if role.population.None? then correlated
    else Larger(correlated, Larger(Risk.HypergeometricProbability(role.population.value, role.size, role.certificate),
                                   Risk.HypergeometricProbability(role.population.value, role.size, role.opening)))
  }

  /** The chance that a draw of the role blocks one of its thresholds. */
  ghost function BlockingRisk(profile: Profile, role: Role): real
    requires ValidProfile(profile) && ValidRole(role)
  {
    var (a, online, odds) := (Val(profile.adversarial), Val(profile.online), AllOddsOf(profile.groups));
    Larger(Mean(odds, BlockGiven(role.size, role.size - role.certificate + 1, role.certificate, a, online)),
           Mean(odds, BlockGiven(role.size, role.size - role.opening + 1, role.opening, a, online)))
  }

  /**
   The headline figures are exactly the largest capture and the largest blocking figure of the role, and so bound all
   that is reported.
   */
  method AssessRole(profile: Profile, role: Role)
    returns (certificate: ThresholdReport, opening: ThresholdReport, capture: Exact, blocking: Exact)
    requires ValidProfile(profile) && ValidRole(role)
    ensures Reports(profile, role, role.certificate, certificate) && Reports(profile, role, role.opening, opening)
    ensures Proper(capture) && Dominates(capture, certificate) && Dominates(capture, opening)
    ensures Val(capture) == CaptureRisk(profile, role)
    ensures Proper(blocking) && Val(blocking) == BlockingRisk(profile, role)
    ensures Val(certificate.combinedBlock) <= Val(blocking) && Val(certificate.adversarialBlock) <= Val(blocking)
         && Val(certificate.tooFewHonestOnline) <= Val(blocking)
    ensures Val(opening.combinedBlock) <= Val(blocking) && Val(opening.adversarialBlock) <= Val(blocking)
         && Val(opening.tooFewHonestOnline) <= Val(blocking)
  {
    certificate := AssessThreshold(profile, role, role.certificate);
    opening := AssessThreshold(profile, role, role.opening);
    ReportOrdered(profile, role, role.certificate, certificate);
    ReportOrdered(profile, role, role.opening, opening);
    capture := LargerOf(certificate.correlatedCapture, opening.correlatedCapture);
    if certificate.hypergeometricCapture.Some? {
      capture := LargerOf(capture, certificate.hypergeometricCapture.value);
    }
    if opening.hypergeometricCapture.Some? {
      capture := LargerOf(capture, opening.hypergeometricCapture.value);
    }
    blocking := LargerOf(certificate.combinedBlock, opening.combinedBlock);
  }

  method LargerOf(p: Exact, q: Exact) returns (r: Exact)
    requires Proper(p) && Proper(q)
    ensures Proper(r) && Val(r) == Larger(Val(p), Val(q))
  {
    AtMostVal(q, p);
    r := Maximum(p, q);
  }

  /** The joint figure is never below the independent product printed next to it. */
  method AssessOverlap(profile: Profile, first: Role, second: Role, shared: nat)
    returns (joint: Exact, independent: Exact)
    requires ValidProfile(profile) && shared <= first.size && shared <= second.size
    ensures Proper(joint) && Proper(independent) && Val(independent) <= Val(joint)
    ensures Val(independent) == Times(Tail(first.size, first.certificate, Val(profile.adversarial)),
                                      Tail(second.size, second.certificate, Val(profile.adversarial)))
    ensures Val(joint) == Mean(AllOddsOf(profile.groups),
                               JointGiven(shared, first.size - shared, first.certificate, second.size - shared,
                                          second.certificate, Val(profile.adversarial)))
  {
    joint := CorrelatedJointTail(profile, first.size, first.certificate, second.size, second.certificate, shared);
    var firstTail := Risk.BinomialTail(first.size, first.certificate, profile.adversarial);
    var secondTail := Risk.BinomialTail(second.size, second.certificate, profile.adversarial);
    independent := Multiply(firstTail, secondTail);
    ProperUnit(profile.adversarial);
    OverlapAtLeastIndependent(AllOddsOf(profile.groups), shared, first.size - shared, first.certificate,
                              second.size - shared, second.certificate, Val(profile.adversarial));
  }
}
