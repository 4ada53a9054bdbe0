/**
 The release gate of a risk profile (crates/meshmine-committee-risk/src/lib.rs):
 headline figures of all roles are added up, multiplied by the selections of a
 year and compared with the targets, all exactly. Targets are exact fractions,
 and the number of selections is a parameter.
 */
module Release {
  import opened Wrappers
  import opened Probability
  import opened ClosedForms
  import opened ExactProbability
  import opened Correlation
  import opened Report
  import Risk

  const MAX_COMMITTEE_SIZE: nat := 256

  datatype Error =
    | Invalid(cause: Correlation.Error) | EmptyRoles | InvalidAnnualTarget
    | SecurityBoundExceeded | LivenessBoundExceeded

  datatype Gate = Passed(capture: Exact, blocking: Exact) | Refused(error: Error)

  datatype RoleReport = RoleReport(certificate: ThresholdReport, opening: ThresholdReport, capture: Exact,
                                   blocking: Exact)

  /** The figures of a role, and headlines that bound them. */
  ghost predicate Assesses(profile: Profile, role: Role, r: RoleReport)
    requires ValidProfile(profile) && ValidRole(role)
  {
    && Reports(profile, role, role.certificate, r.certificate) && Reports(profile, role, role.opening, r.opening)
    && Proper(r.capture) && Dominates(r.capture, r.certificate) && Dominates(r.capture, r.opening)
    && Proper(r.blocking) && Val(r.certificate.combinedBlock) <= Val(r.blocking)
       && Val(r.opening.combinedBlock) <= Val(r.blocking)
    && Val(r.capture) == CaptureRisk(profile, role) && Val(r.blocking) == BlockingRisk(profile, role)
  }

  /** The risks of all roles together, as the profile and the roles determine them. */
  ghost function TotalCapture(profile: Profile, roles: seq<Role>): real
    requires ValidProfile(profile) && AllValidRoles(roles)
  {
    if roles == [] then 0.0
    else TotalCapture(profile, roles[..|roles| - 1]) + CaptureRisk(profile, roles[|roles| - 1])
  }

  ghost function TotalBlocking(profile: Profile, roles: seq<Role>): real
    requires ValidProfile(profile) && AllValidRoles(roles)
  {
    if roles == [] then 0.0
    else TotalBlocking(profile, roles[..|roles| - 1]) + BlockingRisk(profile, roles[|roles| - 1])
  }

  predicate AllProper(ps: seq<Exact>) { forall i :: 0 <= i < |ps| ==> Proper(ps[i]) }

  function Sum(ps: seq<Exact>): real
    requires AllProper(ps)
  {
    if ps == [] then 0.0
    else
      assert Proper(ps[|ps| - 1]);
      Sum(ps[..|ps| - 1]) + Val(ps[|ps| - 1])
  }

  lemma {:induction false} SumBounds(ps: seq<Exact>, i: nat)
    requires AllProper(ps) && i < |ps|
    ensures Proper(ps[i]) && 0.0 <= Val(ps[i]) <= Sum(ps)
  {
    var n := |ps| - 1;
    ProperUnit(ps[n]);
    SumNonNegative(ps[..n]);
    if i < n {
      SumBounds(ps[..n], i);
    }
  }

  lemma {:induction false} SumNonNegative(ps: seq<Exact>)
    requires AllProper(ps)
    ensures Sum(ps) >= 0.0
  {
    if ps != [] {
      ProperUnit(ps[|ps| - 1]);
      SumNonNegative(ps[..|ps| - 1]);
    }
  }

  /** Adding with the cap gives the capped sum, so no figure is above it. */
  method Union(ps: seq<Exact>) returns (total: Exact)
    requires AllProper(ps)
    ensures Proper(total) && Val(total) == Cap(Sum(ps))
    ensures forall i :: 0 <= i < |ps| ==> Proper(ps[i]) && Val(ps[i]) <= Val(total)
  {
    total := Zero();
    for i := 0 to |ps|
      invariant Proper(total) && Val(total) == Cap(Sum(ps[..i]))
    {
      assert ps[..i + 1][..i] == ps[..i];
      SumNonNegative(ps[..i]);
      ProperUnit(ps[i]);
      total := Add(total, ps[i]);
    }
    assert ps[..|ps|] == ps;
    forall i | 0 <= i < |ps| ensures Proper(ps[i]) && Val(ps[i]) <= Val(total) {
      SumBounds(ps, i);
      ProperUnit(ps[i]);
    }
  }

  /** The chance that an event of probability p happens in a year. */
  function AnyInYear(p: real, events: nat): real { 1.0 - Pow(1.0 - p, events) }

  /** The bound for a year: selections times the figure, capped. */
  function Annual(p: real, events: nat): real { Cap(Times(events as real, p)) }

  method AnnualBound(p: Exact, events: nat) returns (r: Exact)
    requires Proper(p)
    ensures Proper(r) && Val(r) == Annual(Val(p), events)
  {
    r := Risk.AnnualUnionBound(p, events);
  }

  lemma YearBound(p: real, total: Exact, events: nat, annual: Exact, target: Exact)
    requires Unit(p) && Proper(total) && p <= Val(total) && Proper(annual) && Positive(target)
    requires Val(annual) == Annual(Val(total), events) && AtMost(annual, target)
    ensures AnyInYear(p, events) <= Val(target)
  {
    AtMostVal(annual, target);
    AnyWithin(p, events);
    EventsMonotone(events as real, p, Val(total));
  }

  lemma AnyWithin(p: real, events: nat)
    requires Unit(p)
    ensures AnyInYear(p, events) <= Times(events as real, p) && AnyInYear(p, events) <= 1.0
  {
    Risk.AnyOf(p, events);
  }

  lemma EventsMonotone(n: real, p: real, q: real)
    requires n >= 0.0 && p <= q
    ensures Times(n, p) <= Times(n, q)
  {
    ProductNonNegative(n, q - p);
  }

  method AssessRoles(profile: Profile, roles: seq<Role>) returns (reports: seq<RoleReport>)
    requires ValidProfile(profile) && AllValidRoles(roles)
    ensures AllAssessed(profile, roles, reports)
  {
    reports := [];
    for i := 0 to |roles|
      invariant |reports| == i && forall k :: 0 <= k < i ==> Assesses(profile, roles[k], reports[k])
    {
      var certificate, opening, capture, blocking := AssessRole(profile, roles[i]);
      reports := reports + [RoleReport(certificate, opening, capture, blocking)];
    }
  }

  function Captures(reports: seq<RoleReport>): seq<Exact> {
    seq(|reports|, i requires 0 <= i < |reports| => reports[i].capture)
  }

  function Blockings(reports: seq<RoleReport>): seq<Exact> {
    seq(|reports|, i requires 0 <= i < |reports| => reports[i].blocking)
  }

  /** All roles have their figures. */
  ghost predicate AllAssessed(profile: Profile, roles: seq<Role>, reports: seq<RoleReport>)
    requires ValidProfile(profile) && AllValidRoles(roles)
  {
    |reports| == |roles| && forall i :: 0 <= i < |roles| ==> Assesses(profile, roles[i], reports[i])
  }

  predicate AllValidRoles(roles: seq<Role>) { forall i :: 0 <= i < |roles| ==> ValidRole(roles[i]) }

  predicate Figured(reports: seq<RoleReport>) { AllProper(Captures(reports)) && AllProper(Blockings(reports)) }

  lemma AssessedFigured(profile: Profile, roles: seq<Role>, reports: seq<RoleReport>)
    requires ValidProfile(profile) && AllValidRoles(roles) && AllAssessed(profile, roles, reports)
    ensures Figured(reports)
  {
    forall i | 0 <= i < |reports| ensures Proper(Captures(reports)[i]) && Proper(Blockings(reports)[i]) {
      assert Assesses(profile, roles[i], reports[i]);
    }
  }

  /** The reported figures add up to the risks. */
  lemma {:induction false} FiguresAreRisks(profile: Profile, roles: seq<Role>, reports: seq<RoleReport>)
    requires ValidProfile(profile) && AllValidRoles(roles) && AllAssessed(profile, roles, reports) && Figured(reports)
    ensures Sum(Captures(reports)) == TotalCapture(profile, roles)
    ensures Sum(Blockings(reports)) == TotalBlocking(profile, roles)
  {
    if roles != [] {
      var n := |roles| - 1;
      var before := reports[..n];
      assert Captures(before) == Captures(reports)[..n] && Blockings(before) == Blockings(reports)[..n];
      AssessedFigured(profile, roles[..n], before);
      FiguresAreRisks(profile, roles[..n], before);
      assert Assesses(profile, roles[n], reports[n]);
    }
  }

  /** The annual bounds of the risks meet their targets. */
  ghost predicate MeetsTargets(profile: Profile, roles: seq<Role>, events: nat, security: Exact, liveness: Exact)
    requires Acceptable(profile, roles, security, liveness)
  {
    MeetsSecurity(profile, roles, events, security)
      && Annual(Cap(TotalBlocking(profile, roles)), events) <= Val(liveness)
  }

  ghost predicate MeetsSecurity(profile: Profile, roles: seq<Role>, events: nat, security: Exact)
    requires ValidProfile(profile) && AllValidRoles(roles) && Positive(security)
  {
    Annual(Cap(TotalCapture(profile, roles)), events) <= Val(security)
  }

  /** The annual bounds: the capped sum over roles, times the selections, capped again. */
  predicate WithinSecurity(reports: seq<RoleReport>, events: nat, security: Exact)
    requires Figured(reports) && Positive(security)
  {
    Annual(Cap(Sum(Captures(reports))), events) <= Val(security)
  }

  predicate WithinLiveness(reports: seq<RoleReport>, events: nat, liveness: Exact)
    requires Figured(reports) && Positive(liveness)
  {
    Annual(Cap(Sum(Blockings(reports))), events) <= Val(liveness)
  }

  /** For both thresholds of a role: the chance of any capture, and of any blocking, in a year is within its target. */
  ghost predicate Safe(profile: Profile, role: Role, events: nat, security: Exact, liveness: Exact)
    requires ValidProfile(profile) && ValidRole(role) && Positive(security) && Positive(liveness)
  {
    SafeAt(profile, role, role.certificate, events, security, liveness)
      && SafeAt(profile, role, role.opening, events, security, liveness)
  }

  ghost predicate SafeAt(profile: Profile, role: Role, t: nat, events: nat, security: Exact, liveness: Exact)
    requires ValidProfile(profile) && ValidRole(role) && t <= role.size && Positive(security) && Positive(liveness)
  {
    var (a, online, odds) := (Val(profile.adversarial), Val(profile.online), AllOddsOf(profile.groups));
    && AnyInYear(Tail(role.size, t, a), events) <= Val(security)
    && AnyInYear(Mean(odds, CaptureGiven(role.size, t, a)), events) <= Val(security)
    && (role.population.Some? ==>
          AnyInYear(Risk.HypergeometricProbability(role.population.value, role.size, t), events) <= Val(security))
    && AnyInYear(Mean(odds, BlockGiven(role.size, role.size - t + 1, t, a, online)), events) <= Val(liveness)
  }

  lemma ThresholdSafe(
      profile: Profile, role: Role, t: nat, r: ThresholdReport, capture: Exact, blocking: Exact, events: nat,
      annualCapture: Exact, annualBlocking: Exact, security: Exact, liveness: Exact)
    requires ValidProfile(profile) && ValidRole(role) && 0 < t <= role.size && Reports(profile, role, t, r)
    requires Proper(capture) && Proper(blocking) && Proper(annualCapture) && Proper(annualBlocking)
    requires Positive(security) && Positive(liveness) && Dominates(capture, r) && Val(r.combinedBlock) <= Val(blocking)
    requires Val(annualCapture) == Annual(Val(capture), events) && AtMost(annualCapture, security)
    requires Val(annualBlocking) == Annual(Val(blocking), events) && AtMost(annualBlocking, liveness)
    ensures SafeAt(profile, role, t, events, security, liveness)
  {
    ProperUnit(r.binomialCapture);
    ProperUnit(r.correlatedCapture);
    ProperUnit(r.combinedBlock);
    YearBound(Val(r.binomialCapture), capture, events, annualCapture, security);
    YearBound(Val(r.correlatedCapture), capture, events, annualCapture, security);
    if role.population.Some? {
      ProperUnit(r.hypergeometricCapture.value);
      YearBound(Val(r.hypergeometricCapture.value), capture, events, annualCapture, security);
    }
    YearBound(Val(r.combinedBlock), blocking, events, annualBlocking, liveness);
  }

  /** A larger headline bounds the same figures. */
  lemma DominatesMore(p: Exact, q: Exact, r: ThresholdReport)
    requires Positive(p) && Positive(q) && Val(p) <= Val(q) && Positive(r.binomialCapture)
             && Positive(r.correlatedCapture)
    requires r.hypergeometricCapture.Some? ==> Positive(r.hypergeometricCapture.value)
    requires Dominates(p, r)
    ensures Dominates(q, r)
  {
  }

  /** The checks made before any figure is computed. */
  predicate Acceptable(profile: Profile, roles: seq<Role>, security: Exact, liveness: Exact) {
    && ValidProfile(profile) && Proper(security) && Proper(liveness) && roles != []
    && AllValidRoles(roles) && forall i :: 0 <= i < |roles| ==> roles[i].size <= MAX_COMMITTEE_SIZE
  }

  method ValidateRoles(roles: seq<Role>) returns (ok: bool)
    ensures ok <==> AllValidRoles(roles) && forall i :: 0 <= i < |roles| ==> roles[i].size <= MAX_COMMITTEE_SIZE
  {
    for i := 0 to |roles|
      invariant forall j :: 0 <= j < i ==> ValidRole(roles[j]) && roles[j].size <= MAX_COMMITTEE_SIZE
    {
      if !ValidRole(roles[i]) || roles[i].size > MAX_COMMITTEE_SIZE {
        return false;
      }
    }
    return true;
  }

  method ValidateProfile(profile: Profile, roles: seq<Role>, security: Exact, liveness: Exact)
    returns (r: Option<Error>)
    ensures r.None? <==> Acceptable(profile, roles, security, liveness)
    ensures r.Some? ==> r.value != SecurityBoundExceeded && r.value != LivenessBoundExceeded
  {
    var adversarial, online := ValidateProbability(profile.adversarial), ValidateProbability(profile.online);
    if adversarial.Err? {
      return Some(Invalid(adversarial.error));
    }
    if online.Err? {
      return Some(Invalid(online.error));
    }
    if roles == [] {
      return Some(EmptyRoles);
    }
    if !Proper(security) || !Proper(liveness) {
      return Some(InvalidAnnualTarget);
    }
    var ok := ValidateRoles(roles);
    if !ok {
      return Some(Invalid(InvalidCommittee));
    }
    var groups := ValidateGroups(profile.groups);
    return if groups.Err? then Some(Invalid(groups.error)) else None;
  }

  /** The gate of an acceptable profile passes exactly if both annual bounds meet their targets. */
  method Decide(profile: Profile, roles: seq<Role>, events: nat, security: Exact, liveness: Exact)
    returns (gate: Gate, reports: seq<RoleReport>)
    requires Acceptable(profile, roles, security, liveness)
    ensures AllAssessed(profile, roles, reports) && Figured(reports)
    ensures gate == Refused(SecurityBoundExceeded) <==> !WithinSecurity(reports, events, security)
    ensures gate == Refused(LivenessBoundExceeded) <==>
            WithinSecurity(reports, events, security) && !WithinLiveness(reports, events, liveness)
    ensures gate.Passed? <==> WithinSecurity(reports, events, security) && WithinLiveness(reports, events, liveness)
    ensures gate.Passed? ==>
              && Proper(gate.capture) && Val(gate.capture) == Cap(Sum(Captures(reports)))
              && Proper(gate.blocking) && Val(gate.blocking) == Cap(Sum(Blockings(reports)))
    ensures gate.Passed? ==> AllSafe(profile, roles, events, security, liveness)
  {
    reports := AssessRoles(profile, roles);
    AssessedFigured(profile, roles, reports);
    var capture := Union(Captures(reports));
    var blocking := Union(Blockings(reports));
    var annualCapture := AnnualBound(capture, events);
    var annualBlocking := AnnualBound(blocking, events);
    AtMostVal(annualCapture, security);
    AtMostVal(annualBlocking, liveness);
    if !AtMost(annualCapture, security) {
      return Refused(SecurityBoundExceeded), reports;
    }
    if !AtMost(annualBlocking, liveness) {
      return Refused(LivenessBoundExceeded), reports;
    }
    RolesSafe(profile, roles, reports, capture, blocking, events, annualCapture, annualBlocking, security, liveness);
    gate := Passed(capture, blocking);
  }

  /**
   A profile that passes the gate is acceptable and safe: for every role and threshold the chance of any capture or
   blocking in a year is within the target. An acceptable profile passes exactly if the annual bounds of its risks,
   which the profile alone determines, meet their targets.
   */
  method EnforceProfile(profile: Profile, roles: seq<Role>, events: nat, security: Exact, liveness: Exact)
    returns (gate: Gate, reports: seq<RoleReport>)
    ensures Acceptable(profile, roles, security, liveness) <==>
            gate.Passed? || gate.error in {SecurityBoundExceeded, LivenessBoundExceeded}
    ensures Acceptable(profile, roles, security, liveness) ==>
              && AllAssessed(profile, roles, reports) && Figured(reports)
              && (gate == Refused(SecurityBoundExceeded) <==> !MeetsSecurity(profile, roles, events, security))
              && (gate.Passed? <==> MeetsTargets(profile, roles, events, security, liveness))
    ensures gate.Passed? ==> AllSafe(profile, roles, events, security, liveness)
  {
    var invalid := ValidateProfile(profile, roles, security, liveness);
    if invalid.Some? {
      return Refused(invalid.value), [];
    }
    gate, reports := Decide(profile, roles, events, security, liveness);
    FiguresAreRisks(profile, roles, reports);
  }

  ghost predicate AllSafe(profile: Profile, roles: seq<Role>, events: nat, security: Exact, liveness: Exact)
    requires ValidProfile(profile) && AllValidRoles(roles) && Positive(security) && Positive(liveness)
  {
    forall i :: 0 <= i < |roles| ==> Safe(profile, roles[i], events, security, liveness)
  }

  lemma RolesSafe(
      profile: Profile, roles: seq<Role>, reports: seq<RoleReport>, capture: Exact, blocking: Exact, events: nat,
      annualCapture: Exact, annualBlocking: Exact, security: Exact, liveness: Exact)
    requires ValidProfile(profile) && AllValidRoles(roles) && AllAssessed(profile, roles, reports)
    requires Proper(capture) && Proper(blocking)
    requires forall i :: 0 <= i < |reports| ==>
             Proper(Captures(reports)[i]) && Val(Captures(reports)[i]) <= Val(capture)
    requires forall i :: 0 <= i < |reports| ==>
             Proper(Blockings(reports)[i]) && Val(Blockings(reports)[i]) <= Val(blocking)
    requires Proper(annualCapture) && Proper(annualBlocking) && Positive(security) && Positive(liveness)
    requires Val(annualCapture) == Annual(Val(capture), events) && AtMost(annualCapture, security)
    requires Val(annualBlocking) == Annual(Val(blocking), events) && AtMost(annualBlocking, liveness)
    ensures AllSafe(profile, roles, events, security, liveness)
  {
    forall i | 0 <= i < |roles| ensures Safe(profile, roles[i], events, security, liveness) {
      assert Captures(reports)[i] == reports[i].capture && Blockings(reports)[i] == reports[i].blocking;
      RoleSafe(profile, roles[i], reports[i], capture, blocking, events, annualCapture, annualBlocking, security,
               liveness);
    }
  }

  lemma RoleSafe(profile: Profile, role: Role, r: RoleReport, capture: Exact, blocking: Exact, events: nat,
                 annualCapture: Exact, annualBlocking: Exact, security: Exact, liveness: Exact)
    requires ValidProfile(profile) && ValidRole(role) && Assesses(profile, role, r)
    requires Proper(capture) && Proper(blocking) && Val(r.capture) <= Val(capture) && Val(r.blocking) <= Val(blocking)
    requires Proper(annualCapture) && Proper(annualBlocking) && Positive(security) && Positive(liveness)
    requires Val(annualCapture) == Annual(Val(capture), events) && AtMost(annualCapture, security)
    requires Val(annualBlocking) == Annual(Val(blocking), events) && AtMost(annualBlocking, liveness)
    ensures Safe(profile, role, events, security, liveness)
  {
    DominatesMore(r.capture, capture, r.certificate);
    DominatesMore(r.capture, capture, r.opening);
    ThresholdSafe(profile, role, role.certificate, r.certificate, capture, blocking, events, annualCapture,
                  annualBlocking,
                  security, liveness);
    ThresholdSafe(profile, role, role.opening, r.opening, capture, blocking, events, annualCapture, annualBlocking,
                  security, liveness);
  }
}
