/** Employment and position coverage, portfolio and seat capacity, and the whole assignment check. */
module Assignment {
  import opened Prelude
  import opened Errors
  import opened Intervals
  import opened Facts
  import opened Resolution
  import opened Coverage
  import opened Allocation

  const ONE := 1.0

  predicate RatioIsValid(ratio: real) {
    0.0 < ratio <= ONE
  }

  predicate EligibleEmployment(status: string) {
    status == "active" || status == "leave"
  }

  predicate StaffablePosition(status: string) {
    status == "active" || status == "open"
  }

  // ---------------------------------------------------------------- employment coverage

  function OfEmployment(tenant: Uuid, employment: Uuid): EmploymentVersion -> bool {
    (v: EmploymentVersion) => v.tenant == tenant && v.employment == employment
  }

  function KnownDuring(knownAt: int, period: Interval): EmploymentVersion -> bool {
    (v: EmploymentVersion) => v.recorded.Contains(knownAt) && v.effective.Overlaps(period)
  }

  function CanStaff(): EmploymentVersion -> bool {
    (v: EmploymentVersion) => EligibleEmployment(v.status)
  }

  /** The periods of some facts, in order. */
  function Periods<F>(facts: seq<F>, period: F -> Interval): seq<Interval> {
    seq(|facts|, i requires 0 <= i < |facts| => period(facts[i]))
  }

  function EmploymentPeriods(versions: seq<EmploymentVersion>): seq<Interval> {
    Periods(versions, (v: EmploymentVersion) => v.effective)
  }

  predicate TwoOverlap(periods: seq<Interval>) {
    exists i, j :: 0 <= i < j < |periods| && periods[i].Overlaps(periods[j])
  }

  ghost function EmploymentCoverageOutcome(
    assignment: AssignmentFact, versions: seq<EmploymentVersion>, knownAt: int): Outcome
  {
    var named := Filter(versions, OfEmployment(assignment.tenant, assignment.employment));
    var during := Filter(named, KnownDuring(knownAt, assignment.effective));
    var eligible := Filter(during, CanStaff());
    if exists v :: v in named && v.person != assignment.person then Fail(AssignmentPersonMismatch)
    else if TwoOverlap(EmploymentPeriods(during)) then Fail(ContradictoryEmployment)
    else if CoversEveryDay(EmploymentPeriods(eligible), assignment.effective) then Pass
    else Fail(EmploymentNotCovered)
  }

  method ValidateAssignmentEmploymentCoverage(
    assignment: AssignmentFact, versions: seq<EmploymentVersion>, knownAt: int) returns (outcome: Outcome)
    ensures outcome == EmploymentCoverageOutcome(assignment, versions, knownAt)
  {
    var named := Filter(versions, OfEmployment(assignment.tenant, assignment.employment));
    if exists v :: v in named && v.person != assignment.person {
      return Fail(AssignmentPersonMismatch);
    }
    var during := Filter(named, KnownDuring(knownAt, assignment.effective));
    if TwoOverlap(EmploymentPeriods(during)) {
      return Fail(ContradictoryEmployment);
    }
    var visible := Filter(during, CanStaff());
    var covered := UnionCovers(EmploymentPeriods(visible), assignment.effective);
    if visible == [] || !covered {
      assert visible == [] ==> !CoveredOn(EmploymentPeriods(visible), assignment.effective.start);
      assert assignment.effective.Contains(assignment.effective.start);
      return Fail(EmploymentNotCovered);
    }
    return Pass;
  }

  /** The versions of the named employment visible on one day. */
  ghost function EmploymentOn(
    assignment: AssignmentFact, versions: seq<EmploymentVersion>, day: int, knownAt: int): seq<EmploymentVersion>
  {
    Reconstruct(versions, EmploymentById(), assignment.tenant, assignment.employment, day, knownAt)
  }

  ghost predicate PersonMatches(assignment: AssignmentFact, versions: seq<EmploymentVersion>) {
    forall v :: v in versions && v.tenant == assignment.tenant && v.employment == assignment.employment
      ==> v.person == assignment.person
  }

  ghost predicate EligibleOn(assignment: AssignmentFact, versions: seq<EmploymentVersion>, day: int, knownAt: int) {
    var on := EmploymentOn(assignment, versions, day, knownAt);
    |on| == 1 && EligibleEmployment(on[0].status)
  }

  /** Each day of the assignment has exactly one visible version of its employment, of an eligible status. */
  ghost predicate EmploymentCovers(assignment: AssignmentFact, versions: seq<EmploymentVersion>, knownAt: int) {
    && PersonMatches(assignment, versions)
    && forall day :: assignment.effective.Contains(day) ==> EligibleOn(assignment, versions, day, knownAt)
  }

  function EffectiveOn(day: int): EmploymentVersion -> bool {
    (v: EmploymentVersion) => v.effective.Contains(day)
  }

  lemma EmploymentOnIsDuring(assignment: AssignmentFact, versions: seq<EmploymentVersion>, day: int, knownAt: int)
    requires assignment.effective.Contains(day)
    ensures var named := Filter(versions, OfEmployment(assignment.tenant, assignment.employment));
            var during := Filter(named, KnownDuring(knownAt, assignment.effective));
            EmploymentOn(assignment, versions, day, knownAt) == Filter(during, EffectiveOn(day))
  {
    var p, q := OfEmployment(assignment.tenant, assignment.employment), KnownDuring(knownAt, assignment.effective);
    var named := Filter(versions, p);
    var onDay := Matching(EmploymentById(), assignment.tenant, assignment.employment, day, knownAt);
    forall v: EmploymentVersion | v.effective.Contains(day)
      ensures v.effective.Overlaps(assignment.effective)
    {
      OverlapIsCommonPoint(v.effective, assignment.effective);
    }
    FilterTwice(named, q, EffectiveOn(day), onDay);
    FilterTwice(versions, p, onDay, onDay);
  }

  /** Two visible versions overlap inside the assignment exactly when some day of it shows two:
      pairwise meeting of the two versions and the assignment gives one common day. */
  /** Two versions that overlap, all meeting the target, are both in effect on some day of it, and conversely. */
  lemma OverlapIsADay(during: seq<EmploymentVersion>, target: Interval)
    requires forall v :: v in during ==> v.effective.Overlaps(target)
    ensures TwoOverlap(EmploymentPeriods(during))
       <==> exists day :: target.Contains(day) && HasPair(during, EffectiveOn(day))
  {
    var periods := EmploymentPeriods(during);
    if TwoOverlap(periods) {
      var i, j :| 0 <= i < j < |periods| && periods[i].Overlaps(periods[j]);
      assert during[i] in during && during[j] in during;
      var day := PairwiseMeetingHasCommonPoint(periods[i], periods[j], target);
      assert EffectiveOn(day)(during[i]) && EffectiveOn(day)(during[j]);
      assert HasPair(during, EffectiveOn(day));
    }
    if day :| target.Contains(day) && HasPair(during, EffectiveOn(day)) {
      var i, j :| 0 <= i < j < |during| && EffectiveOn(day)(during[i]) && EffectiveOn(day)(during[j]);
      OverlapIsCommonPoint(periods[i], periods[j]);
      assert periods[i].Overlaps(periods[j]);
    }
  }

  lemma ContradictionIsADay(assignment: AssignmentFact, versions: seq<EmploymentVersion>, knownAt: int)
    ensures var named := Filter(versions, OfEmployment(assignment.tenant, assignment.employment));
            var during := Filter(named, KnownDuring(knownAt, assignment.effective));
            TwoOverlap(EmploymentPeriods(during))
            <==> exists day :: assignment.effective.Contains(day)
                               && |EmploymentOn(assignment, versions, day, knownAt)| > 1
  {
    var named := Filter(versions, OfEmployment(assignment.tenant, assignment.employment));
    var during := Filter(named, KnownDuring(knownAt, assignment.effective));
    OverlapIsADay(during, assignment.effective);
    forall day | assignment.effective.Contains(day)
      ensures HasPair(during, EffectiveOn(day)) <==> |EmploymentOn(assignment, versions, day, knownAt)| > 1
    {
      EmploymentOnIsDuring(assignment, versions, day, knownAt);
      FilterPair(during, EffectiveOn(day));
    }
  }

  lemma CoveredByVersion(versions: seq<EmploymentVersion>, day: int)
    ensures CoveredOn(EmploymentPeriods(versions), day) <==> exists v :: v in versions && v.effective.Contains(day)
  {
    var periods := EmploymentPeriods(versions);
    if CoveredOn(periods, day) {
      var period :| period in periods && period.Contains(day);
      var k :| 0 <= k < |periods| && periods[k] == period;
      assert versions[k] in versions;
    }
    if v :| v in versions && v.effective.Contains(day) {
      var k :| 0 <= k < |versions| && versions[k] == v;
      assert periods[k] in periods;
    }
  }

  lemma CoverageIsEligibility(assignment: AssignmentFact, versions: seq<EmploymentVersion>, day: int, knownAt: int)
    requires assignment.effective.Contains(day)
    requires |EmploymentOn(assignment, versions, day, knownAt)| <= 1
    ensures var named := Filter(versions, OfEmployment(assignment.tenant, assignment.employment));
            var during := Filter(named, KnownDuring(knownAt, assignment.effective));
            CoveredOn(EmploymentPeriods(Filter(during, CanStaff())), day)
            <==> EligibleOn(assignment, versions, day, knownAt)
  {
    var named := Filter(versions, OfEmployment(assignment.tenant, assignment.employment));
    var during := Filter(named, KnownDuring(knownAt, assignment.effective));
    var eligible := Filter(during, CanStaff());
    EmploymentOnIsDuring(assignment, versions, day, knownAt);
    CoveredByVersion(eligible, day);
    OnlyMember(Filter(during, EffectiveOn(day)), during, day);
  }

  lemma OnlyMember(on: seq<EmploymentVersion>, during: seq<EmploymentVersion>, day: int)
    requires on == Filter(during, EffectiveOn(day)) && |on| <= 1
    ensures (exists v :: v in Filter(during, CanStaff()) && v.effective.Contains(day))
       <==> |on| == 1 && EligibleEmployment(on[0].status)
  {
    if v :| v in Filter(during, CanStaff()) && v.effective.Contains(day) {
      assert v in on;
    }
    if |on| == 1 && EligibleEmployment(on[0].status) {
      assert on[0] in on;
      assert on[0] in Filter(during, CanStaff());
    }
  }

  /** What each answer of the employment-coverage check means, day by day. */
  lemma EmploymentCoverageMeaning(assignment: AssignmentFact, versions: seq<EmploymentVersion>, knownAt: int)
    ensures var outcome := EmploymentCoverageOutcome(assignment, versions, knownAt);
            && (outcome.Pass? <==> EmploymentCovers(assignment, versions, knownAt))
            && (outcome == Fail(AssignmentPersonMismatch) <==> !PersonMatches(assignment, versions))
            && (outcome == Fail(ContradictoryEmployment) <==>
                PersonMatches(assignment, versions)
                && exists day :: assignment.effective.Contains(day)
                                 && |EmploymentOn(assignment, versions, day, knownAt)| > 1)
  {
    var named := Filter(versions, OfEmployment(assignment.tenant, assignment.employment));
    var during := Filter(named, KnownDuring(knownAt, assignment.effective));
    var eligible := Filter(during, CanStaff());
    ContradictionIsADay(assignment, versions, knownAt);
    assert (exists v :: v in named && v.person != assignment.person) <==> !PersonMatches(assignment, versions);
    if !TwoOverlap(EmploymentPeriods(during)) {
      forall day | assignment.effective.Contains(day)
        ensures CoveredOn(EmploymentPeriods(eligible), day) <==> EligibleOn(assignment, versions, day, knownAt)
      {
        CoverageIsEligibility(assignment, versions, day, knownAt);
      }
    }
  }

  // ---------------------------------------------------------------- position coverage

  function OfPosition(tenant: Uuid, position: Uuid): PositionVersion -> bool {
    (v: PositionVersion) => v.tenant == tenant && v.position == position
  }

  function StaffableKnown(knownAt: int): PositionVersion -> bool {
    (v: PositionVersion) => v.recorded.Contains(knownAt) && StaffablePosition(v.status)
  }

  function PositionPeriods(versions: seq<PositionVersion>): seq<Interval> {
    Periods(versions, (v: PositionVersion) => v.effective)
  }

  ghost predicate StaffableOn(assignment: AssignmentFact, versions: seq<PositionVersion>, day: int, knownAt: int) {
    exists v :: v in versions && v.tenant == assignment.tenant && v.position == assignment.position
      && v.effective.Contains(day) && v.recorded.Contains(knownAt) && StaffablePosition(v.status)
  }

  /** Each day of the assignment has some visible staffable version of its position. */
  ghost predicate PositionCovers(assignment: AssignmentFact, versions: seq<PositionVersion>, knownAt: int) {
    forall day :: assignment.effective.Contains(day) ==> StaffableOn(assignment, versions, day, knownAt)
  }

  method ValidateAssignmentPositionCoverage(
    assignment: AssignmentFact, versions: seq<PositionVersion>, knownAt: int) returns (outcome: Outcome)
    ensures outcome == if PositionCovers(assignment, versions, knownAt) then Pass else Fail(PositionNotCovered)
  {
    var named := Filter(versions, OfPosition(assignment.tenant, assignment.position));
    var visible := Filter(named, StaffableKnown(knownAt));
    var covered := UnionCovers(PositionPeriods(visible), assignment.effective);
    forall day | assignment.effective.Contains(day)
      ensures CoveredOn(PositionPeriods(visible), day) <==> StaffableOn(assignment, versions, day, knownAt)
    {
      PositionCoverageOn(assignment, versions, day, knownAt);
    }
    assert assignment.effective.Contains(assignment.effective.start);
    if visible == [] || !covered {
      assert visible == [] ==> !CoveredOn(PositionPeriods(visible), assignment.effective.start);
      return Fail(PositionNotCovered);
    }
    return Pass;
  }

  lemma PositionCoverageOn(assignment: AssignmentFact, versions: seq<PositionVersion>, day: int, knownAt: int)
    ensures var named := Filter(versions, OfPosition(assignment.tenant, assignment.position));
            CoveredOn(PositionPeriods(Filter(named, StaffableKnown(knownAt))), day)
            <==> StaffableOn(assignment, versions, day, knownAt)
  {
    var named := Filter(versions, OfPosition(assignment.tenant, assignment.position));
    var visible := Filter(named, StaffableKnown(knownAt));
    assert forall v :: v in visible <==> v in named && StaffableKnown(knownAt)(v);
    if CoveredOn(PositionPeriods(visible), day) {
      var period :| period in PositionPeriods(visible) && period.Contains(day);
      var k :| 0 <= k < |visible| && PositionPeriods(visible)[k] == period;
      assert visible[k] in visible;
    }
    if StaffableOn(assignment, versions, day, knownAt) {
      var v :| v in versions && v.tenant == assignment.tenant && v.position == assignment.position
        && v.effective.Contains(day) && v.recorded.Contains(knownAt) && StaffablePosition(v.status);
      assert v in visible;
      var k :| 0 <= k < |visible| && visible[k] == v;
      assert PositionPeriods(visible)[k] in PositionPeriods(visible);
    }
  }

  // ---------------------------------------------------------------- portfolio and seat

  ghost predicate RatiosValid(facts: seq<AssignmentFact>, scope: Scope) {
    forall f :: f in facts && scope(f) ==> RatioIsValid(f.ratio)
  }

  ghost function PortfolioOutcome(
    facts: seq<AssignmentFact>, tenant: Uuid, person: Uuid, employment: Uuid, day: int, knownAt: int): Outcome
  {
    var scope := InPortfolio(tenant, person, employment);
    if !RatiosValid(facts, scope) then Fail(RatioOutOfRange)
    else if Load(facts, scope, day, knownAt) > ONE then Fail(EmploymentOverAllocated)
    else Pass
  }

  method ValidateAssignmentPortfolio(
    facts: seq<AssignmentFact>, tenant: Uuid, person: Uuid, employment: Uuid, effectiveOn: int, knownAt: int)
    returns (outcome: Outcome)
    ensures outcome == PortfolioOutcome(facts, tenant, person, employment, effectiveOn, knownAt)
  {
    var scope := InPortfolio(tenant, person, employment);
    var scoped := Filter(facts, scope);
    for i := 0 to |scoped|
      invariant forall k :: 0 <= k < i ==> RatioIsValid(scoped[k].ratio)
    {
      if !RatioIsValid(scoped[i].ratio) {
        assert scoped[i] in scoped;
        return Fail(RatioOutOfRange);
      }
    }
    assert RatiosValid(facts, scope) by {
      forall f | f in facts && scope(f) ensures RatioIsValid(f.ratio) {
        assert f in scoped;
      }
    }
    var visible := ResolveBitemporalFacts(scoped, AssignmentByEmployment(), tenant, employment, effectiveOn, knownAt);
    FilterTwice(facts, scope, Matching(AssignmentByEmployment(), tenant, employment, effectiveOn, knownAt),
                AtDay(scope, effectiveOn, knownAt));
    if Total(visible) > ONE {
      return Fail(EmploymentOverAllocated);
    }
    return Pass;
  }

  ghost function SeatOutcome(
    facts: seq<AssignmentFact>, tenant: Uuid, position: Uuid, day: int, knownAt: int): Outcome
  {
    if Load(facts, OnPosition(tenant, position), day, knownAt) > ONE then Fail(PositionOverAllocated) else Pass
  }

  method ValidatePositionSeatCapacity(
    facts: seq<AssignmentFact>, tenant: Uuid, position: Uuid, effectiveOn: int, knownAt: int)
    returns (outcome: Outcome)
    ensures outcome == SeatOutcome(facts, tenant, position, effectiveOn, knownAt)
  {
    var scope := OnPosition(tenant, position);
    var scoped := Filter(facts, scope);
    var visible := ResolveBitemporalFacts(scoped, AssignmentByPosition(), tenant, position, effectiveOn, knownAt);
    FilterTwice(facts, scope, Matching(AssignmentByPosition(), tenant, position, effectiveOn, knownAt),
                AtDay(scope, effectiveOn, knownAt));
    if Total(visible) > ONE {
      return Fail(PositionOverAllocated);
    }
    return Pass;
  }

  // ---------------------------------------------------------------- the whole check

  ghost function ProbeOutcome(assignment: AssignmentFact, facts: seq<AssignmentFact>, day: int, knownAt: int): Outcome {
    var portfolio := PortfolioOutcome(
      facts, assignment.tenant, assignment.person, assignment.employment, day, knownAt);
    if portfolio.Fail? then portfolio
    else SeatOutcome(facts, assignment.tenant, assignment.position, day, knownAt)
  }

  /** The answer of the probe loop: pass, or the failure of the earliest failing probe day. */
  ghost predicate CapacityOutcomeIs(
    outcome: Outcome, assignment: AssignmentFact, facts: seq<AssignmentFact>, knownAt: int)
  {
    var days := ProbeDays(facts, assignment.effective);
    if outcome.Pass? then
      forall d :: d in days ==> ProbeOutcome(assignment, facts, d, knownAt).Pass?
    else
      exists d :: d in days && outcome == ProbeOutcome(assignment, facts, d, knownAt)
                  && forall e :: e in days && e < d ==> ProbeOutcome(assignment, facts, e, knownAt).Pass?
  }

  ghost function ProbeVerdict(assignment: AssignmentFact, facts: seq<AssignmentFact>, knownAt: int): int -> Outcome {
    (day: int) => ProbeOutcome(assignment, facts, day, knownAt)
  }

  lemma EarliestIsCapacity(outcome: Outcome, assignment: AssignmentFact, facts: seq<AssignmentFact>, knownAt: int)
    requires EarliestFailure(
               outcome, ProbeDays(facts, assignment.effective), ProbeVerdict(assignment, facts, knownAt))
    ensures CapacityOutcomeIs(outcome, assignment, facts, knownAt)
  {
    var verdict := ProbeVerdict(assignment, facts, knownAt);
    forall d ensures verdict(d) == ProbeOutcome(assignment, facts, d, knownAt) {
    }
  }

  ghost predicate WriteOutcomeIs(
    outcome: Outcome, assignment: AssignmentFact, facts: seq<AssignmentFact>,
    employments: seq<EmploymentVersion>, positions: seq<PositionVersion>, knownAt: int)
  {
    var employment := EmploymentCoverageOutcome(assignment, employments, knownAt);
    if employment.Fail? then outcome == employment
    else if !PositionCovers(assignment, positions, knownAt) then outcome == Fail(PositionNotCovered)
    else CapacityOutcomeIs(outcome, assignment, facts, knownAt)
  }

  method ValidateAssignmentWrite(
    assignment: AssignmentFact, facts: seq<AssignmentFact>,
    employments: seq<EmploymentVersion>, positions: seq<PositionVersion>, knownAt: int)
    returns (outcome: Outcome)
    ensures WriteOutcomeIs(outcome, assignment, facts, employments, positions, knownAt)
  {
    outcome := ValidateAssignmentEmploymentCoverage(assignment, employments, knownAt);
    if outcome.Fail? {
      return;
    }
    outcome := ValidateAssignmentPositionCoverage(assignment, positions, knownAt);
    if outcome.Fail? {
      return;
    }
    outcome := CheckProbeDays(assignment, facts, knownAt);
  }

  /** Portfolio, then seat, on each probe day in turn. */
  method CheckProbeDays(assignment: AssignmentFact, facts: seq<AssignmentFact>, knownAt: int) returns (outcome: Outcome)
    ensures CapacityOutcomeIs(outcome, assignment, facts, knownAt)
  {
    var days := AllocationProbeDays(facts, assignment.effective);
    ghost var i;
    outcome, i := CheckDays(assignment, facts, days, knownAt);
    ghost var verdict := ProbeVerdict(assignment, facts, knownAt);
    if outcome.Fail? {
      FirstFailureIsEarliest(days, ProbeDays(facts, assignment.effective), verdict, i);
    } else {
      NoFailureIsPass(days, ProbeDays(facts, assignment.effective), verdict);
    }
    EarliestIsCapacity(outcome, assignment, facts, knownAt);
  }

  /** The loop over the days: `passed` days pass, and the next one, if any, gives the failure. */
  method CheckDays(assignment: AssignmentFact, facts: seq<AssignmentFact>, days: seq<int>, knownAt: int)
    returns (outcome: Outcome, ghost passed: nat)
    ensures passed <= |days|
    ensures forall k :: 0 <= k < passed ==> ProbeVerdict(assignment, facts, knownAt)(days[k]).Pass?
    ensures outcome.Pass? ==> passed == |days|
    ensures outcome.Fail? ==> passed < |days| && outcome == ProbeVerdict(assignment, facts, knownAt)(days[passed])
  {
    for i := 0 to |days|
      invariant forall k :: 0 <= k < i ==> ProbeVerdict(assignment, facts, knownAt)(days[k]).Pass?
    {
      outcome := CheckProbeDay(assignment, facts, days[i], knownAt);
      if outcome.Fail? {
        return outcome, i;
      }
    }
    return Pass, |days|;
  }

  method CheckProbeDay(assignment: AssignmentFact, facts: seq<AssignmentFact>, day: int, knownAt: int)
    returns (outcome: Outcome)
    ensures outcome == ProbeVerdict(assignment, facts, knownAt)(day)
  {
    outcome := ValidateAssignmentPortfolio(
      facts, assignment.tenant, assignment.person, assignment.employment, day, knownAt);
    if outcome.Pass? {
      outcome := ValidatePositionSeatCapacity(facts, assignment.tenant, assignment.position, day, knownAt);
    }
  }

  /** Ratios in range, and portfolio and seat within one, on every day of the assignment. */
  ghost predicate DaysWithinCap(assignment: AssignmentFact, facts: seq<AssignmentFact>, knownAt: int) {
    var portfolio := InPortfolio(assignment.tenant, assignment.person, assignment.employment);
    var seat := OnPosition(assignment.tenant, assignment.position);
    && RatiosValid(facts, portfolio)
    && (forall day :: assignment.effective.Contains(day) ==> Load(facts, portfolio, day, knownAt) <= ONE)
    && (forall day :: assignment.effective.Contains(day) ==> Load(facts, seat, day, knownAt) <= ONE)
  }

  /** The rules an assignment must meet on every one of its days, not only on the probed ones. */
  ghost predicate WriteRulesHold(
    assignment: AssignmentFact, facts: seq<AssignmentFact>,
    employments: seq<EmploymentVersion>, positions: seq<PositionVersion>, knownAt: int)
  {
    && EmploymentCovers(assignment, employments, knownAt)
    && PositionCovers(assignment, positions, knownAt)
    && DaysWithinCap(assignment, facts, knownAt)
  }

  /** No ending of the seat inside the period hides load from the probe days. */
  predicate SeatBalancedOn(assignment: AssignmentFact, facts: seq<AssignmentFact>, day: int, knownAt: int) {
    EndingBalanced(facts, OnPosition(assignment.tenant, assignment.position), day, knownAt)
  }

  ghost predicate SeatBalanced(assignment: AssignmentFact, facts: seq<AssignmentFact>, knownAt: int) {
    forall day :: assignment.effective.start < day && assignment.effective.Contains(day)
                  ==> SeatBalancedOn(assignment, facts, day, knownAt)
  }

  /** Ratios in range, and both loads capped on every probe day. */
  ghost predicate ProbesWithinCap(assignment: AssignmentFact, facts: seq<AssignmentFact>, knownAt: int) {
    var portfolio := InPortfolio(assignment.tenant, assignment.person, assignment.employment);
    var seat := OnPosition(assignment.tenant, assignment.position);
    && RatiosValid(facts, portfolio)
    && (forall d :: d in ProbeDays(facts, assignment.effective) ==> Load(facts, portfolio, d, knownAt) <= ONE)
    && (forall d :: d in ProbeDays(facts, assignment.effective) ==> Load(facts, seat, d, knownAt) <= ONE)
  }

  lemma ProbesPass(assignment: AssignmentFact, facts: seq<AssignmentFact>, knownAt: int)
    ensures CapacityOutcomeIs(Pass, assignment, facts, knownAt) <==> ProbesWithinCap(assignment, facts, knownAt)
  {
    var days := ProbeDays(facts, assignment.effective);
    assert assignment.effective.start in days;
    if CapacityOutcomeIs(Pass, assignment, facts, knownAt) {
      forall d | d in days ensures ProbeOutcome(assignment, facts, d, knownAt).Pass? {
      }
    }
  }

  lemma AcceptedIs(
    assignment: AssignmentFact, facts: seq<AssignmentFact>,
    employments: seq<EmploymentVersion>, positions: seq<PositionVersion>, knownAt: int)
    ensures WriteOutcomeIs(Pass, assignment, facts, employments, positions, knownAt)
       <==> (EmploymentCovers(assignment, employments, knownAt) && PositionCovers(assignment, positions, knownAt)
             && ProbesWithinCap(assignment, facts, knownAt))
  {
    EmploymentCoverageMeaning(assignment, employments, knownAt);
    ProbesPass(assignment, facts, knownAt);
  }

  lemma ProbesAndDays(assignment: AssignmentFact, facts: seq<AssignmentFact>, knownAt: int)
    ensures DaysWithinCap(assignment, facts, knownAt) ==> ProbesWithinCap(assignment, facts, knownAt)
    ensures SeatBalanced(assignment, facts, knownAt)
       ==> (ProbesWithinCap(assignment, facts, knownAt) <==> DaysWithinCap(assignment, facts, knownAt))
  {
    var portfolio := InPortfolio(assignment.tenant, assignment.person, assignment.employment);
    assert forall d :: d in ProbeDays(facts, assignment.effective) ==> assignment.effective.Contains(d);
    if RatiosValid(facts, portfolio) {
      NonNegativeIsDecided(facts, portfolio, assignment.effective, knownAt, ONE);
    }
    if SeatBalanced(assignment, facts, knownAt) {
      SeatIsDecided(assignment, facts, knownAt);
    }
  }

  /** The rules on every day are accepted, whatever the ratios; and what is accepted meets the rules on every day
      when the seat's endings inside the period are balanced. */
  lemma WriteAcceptanceMeaning(
    assignment: AssignmentFact, facts: seq<AssignmentFact>,
    employments: seq<EmploymentVersion>, positions: seq<PositionVersion>, knownAt: int)
    ensures WriteRulesHold(assignment, facts, employments, positions, knownAt)
       ==> WriteOutcomeIs(Pass, assignment, facts, employments, positions, knownAt)
    ensures SeatBalanced(assignment, facts, knownAt)
       ==> (WriteOutcomeIs(Pass, assignment, facts, employments, positions, knownAt)
            <==> WriteRulesHold(assignment, facts, employments, positions, knownAt))
  {
    AcceptedIs(assignment, facts, employments, positions, knownAt);
    ProbesAndDays(assignment, facts, knownAt);
  }

  lemma SeatIsDecided(assignment: AssignmentFact, facts: seq<AssignmentFact>, knownAt: int)
    requires SeatBalanced(assignment, facts, knownAt)
    ensures ProbesDecide(facts, OnPosition(assignment.tenant, assignment.position), assignment.effective, knownAt, ONE)
  {
    var seat := OnPosition(assignment.tenant, assignment.position);
    forall d | assignment.effective.start < d && assignment.effective.Contains(d)
      ensures EndingBalanced(facts, seat, d, knownAt)
    {
      assert SeatBalancedOn(assignment, facts, d, knownAt);
    }
    BalancedEndingsDecide(facts, seat, assignment.effective, knownAt, ONE);
  }

  // ---------------------------------------------------------------- order of the inputs

  lemma EmploymentCoversPermuted(
    f: AssignmentFact, a: seq<EmploymentVersion>, b: seq<EmploymentVersion>, knownAt: int)
    requires multiset(a) == multiset(b) && EmploymentCovers(f, a, knownAt)
    ensures EmploymentCovers(f, b, knownAt)
  {
    PermutationMembers(a, b);
    forall day | f.effective.Contains(day) ensures EligibleOn(f, b, day, knownAt) {
      var onA, onB := EmploymentOn(f, a, day, knownAt), EmploymentOn(f, b, day, knownAt);
      assert EligibleOn(f, a, day, knownAt);
      FilterPermutation(a, b, Matching(EmploymentById(), f.tenant, f.employment, day, knownAt));
      PermutationMembers(onA, onB);
      assert onB[0] in onA;
    }
  }

  /** The rules read their three lists as collections: the order of the rows never matters. */
  lemma WriteRulesPermuted(
    assignment: AssignmentFact, facts: seq<AssignmentFact>, facts': seq<AssignmentFact>,
    employments: seq<EmploymentVersion>, employments': seq<EmploymentVersion>,
    positions: seq<PositionVersion>, positions': seq<PositionVersion>, knownAt: int)
    requires multiset(facts) == multiset(facts') && multiset(employments) == multiset(employments')
    requires multiset(positions) == multiset(positions')
    requires WriteRulesHold(assignment, facts, employments, positions, knownAt)
    ensures WriteRulesHold(assignment, facts', employments', positions', knownAt)
  {
    var portfolio := InPortfolio(assignment.tenant, assignment.person, assignment.employment);
    var seat := OnPosition(assignment.tenant, assignment.position);
    EmploymentCoversPermuted(assignment, employments, employments', knownAt);
    PermutationMembers(facts, facts');
    PermutationMembers(positions, positions');
    forall day | assignment.effective.Contains(day) ensures StaffableOn(assignment, positions', day, knownAt) {
      assert StaffableOn(assignment, positions, day, knownAt);
    }
    forall day | assignment.effective.Contains(day)
      ensures Load(facts', portfolio, day, knownAt) <= ONE
      ensures Load(facts', seat, day, knownAt) <= ONE
    {
      LoadPermutation(facts, facts', portfolio, day, knownAt);
      LoadPermutation(facts, facts', seat, day, knownAt);
    }
  }

  // ---------------------------------------------------------------- what an unbalanced ending hides

  /** A full allocation, a half one, and a negative one that ends on day 5. */
  function FullHalfNegative(): seq<AssignmentFact> {
    [AssignmentFact(1, 1, 1, 1, 1, 1.0, From(0), From(0)),
     AssignmentFact(1, 2, 2, 2, 1, 0.5, From(0), From(0)),
     AssignmentFact(1, 3, 3, 3, 1, -0.5, Bounds(0, Some(5)), From(0))]
  }

  lemma LoadsOfExample(day: int)
    requires day >= 0
    ensures Load(FullHalfNegative(), OnPosition(1, 1), day, 0) == if day < 5 then 1.0 else 1.5
    ensures Load(FullHalfNegative(), InPortfolio(1, 1, 1), day, 0) == 1.0
  {
    var facts := FullHalfNegative();
    LoadOfThree(facts[0], facts[1], facts[2], OnPosition(1, 1), day, 0);
    LoadOfThree(facts[0], facts[1], facts[2], InPortfolio(1, 1, 1), day, 0);
  }

  lemma ExampleIsCovered(v: EmploymentVersion, w: PositionVersion)
    requires v == EmploymentVersion(1, 1, 1, 1, "active", From(0), From(0), "exclusive")
    requires w == PositionVersion(1, 1, 1, "open", From(0), From(0))
    ensures EmploymentCovers(FullHalfNegative()[0], [v], 0)
    ensures PositionCovers(FullHalfNegative()[0], [w], 0)
  {
    var f := FullHalfNegative()[0];
    forall day | f.effective.Contains(day) ensures EligibleOn(f, [v], day, 0) && StaffableOn(f, [w], day, 0) {
      FilterAll([v], Matching(EmploymentById(), 1, 1, day, 0));
      assert w in [w];
    }
  }

  lemma ExampleProbes()
    ensures ProbeDays(FullHalfNegative(), FullHalfNegative()[0].effective) == {0}
    ensures RatiosValid(FullHalfNegative(), InPortfolio(1, 1, 1))
    ensures NothingStarts(FullHalfNegative(), 5)
  {
  }

  /** With both coverages and one probe day in order, a write is accepted. */
  lemma OneProbeAccepts(
    f: AssignmentFact, facts: seq<AssignmentFact>, employments: seq<EmploymentVersion>, positions: seq<PositionVersion>,
    day: int, knownAt: int)
    requires EmploymentCovers(f, employments, knownAt) && PositionCovers(f, positions, knownAt)
    requires ProbeDays(facts, f.effective) == {day}
    requires RatiosValid(facts, InPortfolio(f.tenant, f.person, f.employment))
    requires Load(facts, InPortfolio(f.tenant, f.person, f.employment), day, knownAt) <= ONE
    requires Load(facts, OnPosition(f.tenant, f.position), day, knownAt) <= ONE
    ensures WriteOutcomeIs(Pass, f, facts, employments, positions, knownAt)
  {
    EmploymentCoverageMeaning(f, employments, knownAt);
  }

  /** An unbalanced ending: the write check accepts the full assignment, although the seat is overloaded from the day
      the negative allocation ends. */
  lemma NegativeRatioHidesOverload(v: EmploymentVersion, w: PositionVersion)
    requires v == EmploymentVersion(1, 1, 1, 1, "active", From(0), From(0), "exclusive")
    requires w == PositionVersion(1, 1, 1, "open", From(0), From(0))
    ensures var facts := FullHalfNegative();
            && WriteOutcomeIs(Pass, facts[0], facts, [v], [w], 0)
            && facts[0].effective.Contains(5) && Load(facts, OnPosition(1, 1), 5, 0) > ONE
            && !SeatBalancedOn(facts[0], facts, 5, 0)
            && !WriteRulesHold(facts[0], facts, [v], [w], 0)
  {
    ExampleIsCovered(v, w);
    ExampleProbes();
    LoadsOfExample(0);
    LoadsOfExample(4);
    LoadsOfExample(5);
    OneProbeAccepts(FullHalfNegative()[0], FullHalfNegative(), [v], [w], 0, 0);
    LoadAcross(FullHalfNegative(), OnPosition(1, 1), 5, 0);
  }

  lemma LoadOfThree(a: AssignmentFact, b: AssignmentFact, c: AssignmentFact, scope: Scope, day: int, knownAt: int)
    ensures var p := AtDay(scope, day, knownAt);
            Load([a, b, c], scope, day, knownAt)
            == (if p(a) then a.ratio else 0.0) + (if p(b) then b.ratio else 0.0) + (if p(c) then c.ratio else 0.0)
  {
    var p := AtDay(scope, day, knownAt);
    LoadOfOne(a, p);
    LoadOfOne(b, p);
    LoadOfOne(c, p);
    assert [a, b, c] == [a] + ([b] + [c]);
    FilterAppend([a], [b] + [c], p);
    FilterAppend([b], [c], p);
    TotalAppend(Filter([a], p), Filter([b], p) + Filter([c], p));
    TotalAppend(Filter([b], p), Filter([c], p));
  }

  lemma LoadOfOne(a: AssignmentFact, p: Scope)
    ensures Total(Filter([a], p)) == if p(a) then a.ratio else 0.0
  {
    assert [a][1..] == [];
    assert Filter([], p) == [];
  }
}
