/** What the kernel's checks answer, said on the fields of the rows alone: no helper of the checks is used here, so each
    statement stands for itself. */
module KernelMeaning {
  import opened Prelude
  import opened Errors
  import opened Intervals
  import opened Facts
  import opened Resolution
  import opened Employment
  import opened Allocation
  import opened Assignment
  import opened Organization

  // ---------------------------------------------------------------- rows at a coordinate

  ghost predicate EmploymentAt(v: EmploymentVersion, tenant: Uuid, employment: Uuid, day: int, knownAt: int) {
    v.tenant == tenant && v.employment == employment && v.effective.Contains(day) && v.recorded.Contains(knownAt)
  }

  ghost predicate PositionAt(v: PositionVersion, tenant: Uuid, position: Uuid, day: int, knownAt: int) {
    v.tenant == tenant && v.position == position && v.effective.Contains(day) && v.recorded.Contains(knownAt)
  }

  /** The ratios of a seat's facts that are in effect on the day and known at the cutoff, added up. */
  ghost function SeatLoad(facts: seq<AssignmentFact>, tenant: Uuid, position: Uuid, day: int, knownAt: int): real {
    if facts == [] then 0.0
    else
      var f := facts[0];
      (if f.tenant == tenant && f.position == position && f.effective.Contains(day) && f.recorded.Contains(knownAt)
       then f.ratio else 0.0)
      + SeatLoad(facts[1..], tenant, position, day, knownAt)
  }

  ghost function EmploymentLoad(facts: seq<AssignmentFact>, tenant: Uuid, employment: Uuid, day: int, knownAt: int)
    : real
  {
    if facts == [] then 0.0
    else
      var f := facts[0];
      (if f.tenant == tenant && f.employment == employment && f.effective.Contains(day) && f.recorded.Contains(knownAt)
       then f.ratio else 0.0)
      + EmploymentLoad(facts[1..], tenant, employment, day, knownAt)
  }

  ghost function PortfolioLoad(
    facts: seq<AssignmentFact>, tenant: Uuid, person: Uuid, employment: Uuid, day: int, knownAt: int): real
  {
    if facts == [] then 0.0
    else
      var f := facts[0];
      (if f.tenant == tenant && f.person == person && f.employment == employment
          && f.effective.Contains(day) && f.recorded.Contains(knownAt)
       then f.ratio else 0.0)
      + PortfolioLoad(facts[1..], tenant, person, employment, day, knownAt)
  }

  lemma {:induction false} SeatLoadIs(facts: seq<AssignmentFact>, tenant: Uuid, position: Uuid, day: int, knownAt: int)
    ensures Load(facts, OnPosition(tenant, position), day, knownAt) == SeatLoad(facts, tenant, position, day, knownAt)
  {
    if facts != [] {
      SeatLoadIs(facts[1..], tenant, position, day, knownAt);
      TotalAppend([facts[0]], Filter(facts[1..], AtDay(OnPosition(tenant, position), day, knownAt)));
    }
  }

  lemma {:induction false} EmploymentLoadIs(
    facts: seq<AssignmentFact>, tenant: Uuid, employment: Uuid, day: int, knownAt: int)
    ensures (Load(facts, OnEmployment(tenant, employment), day, knownAt) ==
             EmploymentLoad(facts, tenant, employment, day, knownAt))
  {
    if facts != [] {
      EmploymentLoadIs(facts[1..], tenant, employment, day, knownAt);
      TotalAppend([facts[0]], Filter(facts[1..], AtDay(OnEmployment(tenant, employment), day, knownAt)));
    }
  }

  lemma {:induction false} PortfolioLoadIs(
    facts: seq<AssignmentFact>, tenant: Uuid, person: Uuid, employment: Uuid, day: int, knownAt: int)
    ensures (Load(facts, InPortfolio(tenant, person, employment), day, knownAt) ==
             PortfolioLoad(facts, tenant, person, employment, day, knownAt))
  {
    if facts != [] {
      PortfolioLoadIs(facts[1..], tenant, person, employment, day, knownAt);
      TotalAppend([facts[0]], Filter(facts[1..], AtDay(InPortfolio(tenant, person, employment), day, knownAt)));
    }
  }

  // ---------------------------------------------------------------- exclusivity

  /** A version whose concurrency code is neither of the two. */
  ghost predicate HasUnknownCode(versions: seq<EmploymentVersion>, tenant: Uuid, person: Uuid) {
    exists v :: v in versions && v.tenant == tenant && v.person == person
                && v.concurrency != "exclusive" && v.concurrency != "concurrent"
  }

  /** A day on which two different exclusive employments of the person are known. */
  ghost predicate HasTwoExclusives(versions: seq<EmploymentVersion>, tenant: Uuid, person: Uuid, knownAt: int) {
    exists v, w, day :: v in versions && w in versions && v.employment != w.employment
                        && v.tenant == w.tenant == tenant && v.person == w.person == person
                        && v.concurrency == w.concurrency == "exclusive"
                        && v.effective.Contains(day) && w.effective.Contains(day)
                        && v.recorded.Contains(knownAt) && w.recorded.Contains(knownAt)
  }

  lemma ExclusivityInFull(versions: seq<EmploymentVersion>, tenant: Uuid, person: Uuid, knownAt: int)
    ensures (ValidatePersonEmploymentExclusivity(versions, tenant, person, knownAt) ==
             if HasUnknownCode(versions, tenant, person) then Fail(UnknownConcurrencyCode)
             else if HasTwoExclusives(versions, tenant, person, knownAt) then Fail(ExclusiveEmploymentsOverlap)
             else Pass)
  {
    ExclusivityMeaning(versions, tenant, person, knownAt);
    if HasTwoExclusives(versions, tenant, person, knownAt) {
      var v, w, day :| v in versions && w in versions && v.employment != w.employment
                       && v.tenant == w.tenant == tenant && v.person == w.person == person
                       && v.concurrency == w.concurrency == "exclusive"
                       && v.effective.Contains(day) && w.effective.Contains(day)
                       && v.recorded.Contains(knownAt) && w.recorded.Contains(knownAt);
      assert ExclusiveOn(v, tenant, person, day, knownAt) && ExclusiveOn(w, tenant, person, day, knownAt);
    }
  }

  // ---------------------------------------------------------------- employment coverage

  ghost predicate NamesAnother(a: AssignmentFact, versions: seq<EmploymentVersion>) {
    exists v :: v in versions && v.tenant == a.tenant && v.employment == a.employment && v.person != a.person
  }

  /** Two places of the list show the employment on one day of the assignment. */
  ghost predicate ShowsTwo(a: AssignmentFact, versions: seq<EmploymentVersion>, day: int, knownAt: int) {
    exists i, j :: 0 <= i < j < |versions| && EmploymentAt(versions[i], a.tenant, a.employment, day, knownAt)
                   && EmploymentAt(versions[j], a.tenant, a.employment, day, knownAt)
  }

  /** Exactly one place shows the employment on the day, active or on leave. */
  ghost predicate ShowsOneEligible(a: AssignmentFact, versions: seq<EmploymentVersion>, day: int, knownAt: int) {
    exists i :: 0 <= i < |versions| && EmploymentAt(versions[i], a.tenant, a.employment, day, knownAt)
                && (versions[i].status == "active" || versions[i].status == "leave")
                && forall j :: 0 <= j < |versions| && EmploymentAt(versions[j], a.tenant, a.employment, day, knownAt)
                               ==> j == i
  }

  function AtCoordinate(tenant: Uuid, employment: Uuid, day: int, knownAt: int): EmploymentVersion -> bool {
    Matching(EmploymentById(), tenant, employment, day, knownAt)
  }

  lemma OnDayInFull(a: AssignmentFact, versions: seq<EmploymentVersion>, day: int, knownAt: int)
    ensures |EmploymentOn(a, versions, day, knownAt)| > 1 <==> ShowsTwo(a, versions, day, knownAt)
    ensures EligibleOn(a, versions, day, knownAt) <==> ShowsOneEligible(a, versions, day, knownAt)
  {
    var p := AtCoordinate(a.tenant, a.employment, day, knownAt);
    forall v: EmploymentVersion ensures p(v) <==> EmploymentAt(v, a.tenant, a.employment, day, knownAt) {
      assert EmploymentById()(v) == FactView(v.tenant, Some(v.employment), v.effective, v.recorded);
    }
    FilterPair(versions, p);
    OneMember(versions, p);
    if EligibleOn(a, versions, day, knownAt) {
      var i := OnlyOne(versions, p);
      FilterOnly(versions, p, i);
    }
    if i :| 0 <= i < |versions| && EmploymentAt(versions[i], a.tenant, a.employment, day, knownAt)
            && (versions[i].status == "active" || versions[i].status == "leave")
            && forall j :: 0 <= j < |versions| && EmploymentAt(versions[j], a.tenant, a.employment, day, knownAt)
                           ==> j == i
    {
      assert OnlyAt(versions, p, i);
      FilterOnly(versions, p, i);
    }
  }

  ghost predicate CoveredInFull(a: AssignmentFact, versions: seq<EmploymentVersion>, knownAt: int) {
    !NamesAnother(a, versions)
    && forall day :: a.effective.Contains(day) ==> ShowsOneEligible(a, versions, day, knownAt)
  }

  /** The answer of the employment-coverage check, errors included. */
  lemma EmploymentCoverageInFull(a: AssignmentFact, versions: seq<EmploymentVersion>, knownAt: int)
    ensures (EmploymentCoverageOutcome(a, versions, knownAt) ==
             if NamesAnother(a, versions) then Fail(AssignmentPersonMismatch)
             else if exists day :: a.effective.Contains(day) && ShowsTwo(a, versions, day, knownAt)
             then Fail(ContradictoryEmployment)
             else if CoveredInFull(a, versions, knownAt) then Pass
             else Fail(EmploymentNotCovered))
    ensures EmploymentCovers(a, versions, knownAt) <==> CoveredInFull(a, versions, knownAt)
  {
    EmploymentCoverageMeaning(a, versions, knownAt);
    forall day
      ensures |EmploymentOn(a, versions, day, knownAt)| > 1 <==> ShowsTwo(a, versions, day, knownAt)
      ensures EligibleOn(a, versions, day, knownAt) <==> ShowsOneEligible(a, versions, day, knownAt)
    {
      OnDayInFull(a, versions, day, knownAt);
    }
  }

  // ---------------------------------------------------------------- position coverage and capacity

  ghost predicate SeatStaffable(a: AssignmentFact, versions: seq<PositionVersion>, knownAt: int) {
    forall day :: a.effective.Contains(day) ==>
      exists v :: v in versions && PositionAt(v, a.tenant, a.position, day, knownAt)
                  && (v.status == "active" || v.status == "open")
  }

  lemma PositionCoverageInFull(a: AssignmentFact, versions: seq<PositionVersion>, knownAt: int)
    ensures PositionCovers(a, versions, knownAt) <==> SeatStaffable(a, versions, knownAt)
  {
    if PositionCovers(a, versions, knownAt) {
      forall day | a.effective.Contains(day)
        ensures exists v :: v in versions && PositionAt(v, a.tenant, a.position, day, knownAt)
                            && (v.status == "active" || v.status == "open")
      {
        assert StaffableOn(a, versions, day, knownAt);
      }
    }
    if SeatStaffable(a, versions, knownAt) {
      forall day | a.effective.Contains(day) ensures StaffableOn(a, versions, day, knownAt) {
        var v :| v in versions && PositionAt(v, a.tenant, a.position, day, knownAt)
                 && (v.status == "active" || v.status == "open");
      }
    }
  }

  /** A ratio of the portfolio, on any day, that is not above zero and at most one. */
  ghost predicate HasBadRatio(facts: seq<AssignmentFact>, tenant: Uuid, person: Uuid, employment: Uuid) {
    exists f :: f in facts && f.tenant == tenant && f.person == person && f.employment == employment
                && !(0.0 < f.ratio <= 1.0)
  }

  /** The portfolio check: a bad ratio on any day comes first, then the load of the day. */
  lemma PortfolioInFull(
    facts: seq<AssignmentFact>, tenant: Uuid, person: Uuid, employment: Uuid, day: int, knownAt: int)
    ensures (PortfolioOutcome(facts, tenant, person, employment, day, knownAt) ==
             if HasBadRatio(facts, tenant, person, employment) then Fail(RatioOutOfRange)
             else if PortfolioLoad(facts, tenant, person, employment, day, knownAt) > 1.0
             then Fail(EmploymentOverAllocated)
             else Pass)
  {
    PortfolioLoadIs(facts, tenant, person, employment, day, knownAt);
  }

  lemma SeatInFull(facts: seq<AssignmentFact>, tenant: Uuid, position: Uuid, day: int, knownAt: int)
    ensures (SeatOutcome(facts, tenant, position, day, knownAt) ==
             if SeatLoad(facts, tenant, position, day, knownAt) > 1.0 then Fail(PositionOverAllocated) else Pass)
  {
    SeatLoadIs(facts, tenant, position, day, knownAt);
  }

  // ---------------------------------------------------------------- the whole write check

  /** The days the capacity checks look at. That a fact must overlap the target adds nothing to starting inside it. */
  ghost predicate IsProbeDay(facts: seq<AssignmentFact>, target: Interval, day: int) {
    day == target.start || (target.Contains(day) && exists f :: f in facts && f.effective.start == day)
  }

  lemma ProbeDaysInFull(facts: seq<AssignmentFact>, target: Interval, day: int)
    ensures day in ProbeDays(facts, target) <==> IsProbeDay(facts, target, day)
  {
    if f :| f in facts && f.effective.start == day && target.Contains(day) {
      assert StartsInside(f, target);
    }
  }

  /** Portfolio and seat are within one on the day. */
  ghost predicate FitsOn(a: AssignmentFact, facts: seq<AssignmentFact>, day: int, knownAt: int) {
    && PortfolioLoad(facts, a.tenant, a.person, a.employment, day, knownAt) <= 1.0
    && SeatLoad(facts, a.tenant, a.position, day, knownAt) <= 1.0
  }

  /** The capacity error of the earliest failing probe day. */
  ghost predicate EarliestOverload(outcome: Outcome, a: AssignmentFact, facts: seq<AssignmentFact>, knownAt: int) {
    exists day :: IsProbeDay(facts, a.effective, day)
      && (forall e :: IsProbeDay(facts, a.effective, e) && e < day ==> FitsOn(a, facts, e, knownAt))
      && (if PortfolioLoad(facts, a.tenant, a.person, a.employment, day, knownAt) > 1.0
          then outcome == Fail(EmploymentOverAllocated)
          else SeatLoad(facts, a.tenant, a.position, day, knownAt) > 1.0 && outcome == Fail(PositionOverAllocated))
  }

  lemma ProbeInFull(a: AssignmentFact, facts: seq<AssignmentFact>, day: int, knownAt: int)
    ensures (ProbeOutcome(a, facts, day, knownAt) ==
             if HasBadRatio(facts, a.tenant, a.person, a.employment) then Fail(RatioOutOfRange)
             else if PortfolioLoad(facts, a.tenant, a.person, a.employment, day, knownAt) > 1.0
             then Fail(EmploymentOverAllocated)
             else if SeatLoad(facts, a.tenant, a.position, day, knownAt) > 1.0 then Fail(PositionOverAllocated)
             else Pass)
  {
    PortfolioInFull(facts, a.tenant, a.person, a.employment, day, knownAt);
    SeatInFull(facts, a.tenant, a.position, day, knownAt);
  }

  lemma CapacityInFull(outcome: Outcome, a: AssignmentFact, facts: seq<AssignmentFact>, knownAt: int)
    requires CapacityOutcomeIs(outcome, a, facts, knownAt)
    ensures if HasBadRatio(facts, a.tenant, a.person, a.employment) then outcome == Fail(RatioOutOfRange)
            else if outcome.Pass?
            then forall day :: IsProbeDay(facts, a.effective, day) ==> FitsOn(a, facts, day, knownAt)
            else EarliestOverload(outcome, a, facts, knownAt)
  {
    forall day
      ensures day in ProbeDays(facts, a.effective) <==> IsProbeDay(facts, a.effective, day)
    {
      ProbeDaysInFull(facts, a.effective, day);
    }
    assert a.effective.start in ProbeDays(facts, a.effective);
    ProbeInFull(a, facts, a.effective.start, knownAt);
    if outcome.Pass? {
      forall day | IsProbeDay(facts, a.effective, day) ensures FitsOn(a, facts, day, knownAt) {
        ProbeInFull(a, facts, day, knownAt);
      }
    } else {
      var day :| day in ProbeDays(facts, a.effective) && outcome == ProbeOutcome(a, facts, day, knownAt)
                 && forall e :: e in ProbeDays(facts, a.effective) && e < day
                                ==> ProbeOutcome(a, facts, e, knownAt).Pass?;
      ProbeInFull(a, facts, day, knownAt);
      forall e | IsProbeDay(facts, a.effective, e) && e < day ensures FitsOn(a, facts, e, knownAt) {
        ProbeInFull(a, facts, e, knownAt);
      }
    }
  }

  /** The answer of the write check, stage by stage and error by error. */
  lemma WriteInFull(
    outcome: Outcome, a: AssignmentFact, facts: seq<AssignmentFact>,
    employments: seq<EmploymentVersion>, positions: seq<PositionVersion>, knownAt: int)
    requires WriteOutcomeIs(outcome, a, facts, employments, positions, knownAt)
    ensures if NamesAnother(a, employments) then outcome == Fail(AssignmentPersonMismatch)
            else if exists day :: a.effective.Contains(day) && ShowsTwo(a, employments, day, knownAt)
            then outcome == Fail(ContradictoryEmployment)
            else if !CoveredInFull(a, employments, knownAt) then outcome == Fail(EmploymentNotCovered)
            else if !SeatStaffable(a, positions, knownAt) then outcome == Fail(PositionNotCovered)
            else if HasBadRatio(facts, a.tenant, a.person, a.employment) then outcome == Fail(RatioOutOfRange)
            else if outcome.Pass?
            then forall day :: IsProbeDay(facts, a.effective, day) ==> FitsOn(a, facts, day, knownAt)
            else EarliestOverload(outcome, a, facts, knownAt)
  {
    EmploymentCoverageInFull(a, employments, knownAt);
    PositionCoverageInFull(a, positions, knownAt);
    if EmploymentCoverageOutcome(a, employments, knownAt).Pass? && PositionCovers(a, positions, knownAt) {
      CapacityInFull(outcome, a, facts, knownAt);
    }
  }

  /** The rules of a write on every day of the assignment. */
  lemma WriteRulesInFull(
    a: AssignmentFact, facts: seq<AssignmentFact>,
    employments: seq<EmploymentVersion>, positions: seq<PositionVersion>, knownAt: int)
    ensures (WriteRulesHold(a, facts, employments, positions, knownAt) <==>
             && CoveredInFull(a, employments, knownAt)
             && SeatStaffable(a, positions, knownAt)
             && !HasBadRatio(facts, a.tenant, a.person, a.employment)
             && forall day :: a.effective.Contains(day) ==> FitsOn(a, facts, day, knownAt))
  {
    EmploymentCoverageInFull(a, employments, knownAt);
    PositionCoverageInFull(a, positions, knownAt);
    forall day
      ensures (&& Load(facts, InPortfolio(a.tenant, a.person, a.employment), day, knownAt) <= 1.0
               && Load(facts, OnPosition(a.tenant, a.position), day, knownAt) <= 1.0
               <==> FitsOn(a, facts, day, knownAt))
    {
      PortfolioLoadIs(facts, a.tenant, a.person, a.employment, day, knownAt);
      SeatLoadIs(facts, a.tenant, a.position, day, knownAt);
    }
  }

  // ---------------------------------------------------------------- the organization chart

  ghost predicate UnitAt(v: OrganizationUnitVersion, tenant: Uuid, day: int, knownAt: int) {
    v.tenant == tenant && v.effective.Contains(day) && v.recorded.Contains(knownAt)
  }

  /** Two places of the list show one unit at the coordinate. */
  ghost predicate ShowsUnitTwice(versions: seq<OrganizationUnitVersion>, tenant: Uuid, day: int, knownAt: int) {
    exists i, j :: 0 <= i < j < |versions| && versions[i].unit == versions[j].unit
                   && UnitAt(versions[i], tenant, day, knownAt) && UnitAt(versions[j], tenant, day, knownAt)
  }

  /** The rank of a visible unit is above the rank of its visible parent. */
  ghost predicate FallsUpward(
    rank: map<Uuid, nat>, versions: seq<OrganizationUnitVersion>, tenant: Uuid, day: int, knownAt: int)
  {
    forall v, w :: v in versions && w in versions && UnitAt(v, tenant, day, knownAt) && UnitAt(w, tenant, day, knownAt)
                   && v.parent == Some(w.unit)
                   ==> v.unit in rank && w.unit in rank && rank[w.unit] < rank[v.unit]
  }

  lemma UnitOnInFull(versions: seq<OrganizationUnitVersion>, tenant: Uuid, unit: Uuid, day: int, knownAt: int)
    ensures forall v :: v in UnitOn(versions, tenant, unit, day, knownAt) <==>
                        v in versions && v.unit == unit && UnitAt(v, tenant, day, knownAt)
    ensures (|UnitOn(versions, tenant, unit, day, knownAt)| > 1 <==>
             exists i, j :: 0 <= i < j < |versions| && versions[i].unit == versions[j].unit == unit
                            && UnitAt(versions[i], tenant, day, knownAt) && UnitAt(versions[j], tenant, day, knownAt))
  {
    var p := Matching(UnitById(), tenant, unit, day, knownAt);
    forall v: OrganizationUnitVersion ensures p(v) <==> v.unit == unit && UnitAt(v, tenant, day, knownAt) {
      assert UnitById()(v) == FactView(v.tenant, Some(v.unit), v.effective, v.recorded);
    }
    FilterPair(versions, p);
  }

  /** The parent map holds exactly the visible units, each with the parent its version names. */
  ghost predicate LinksAreVisible(
    links: Parents, versions: seq<OrganizationUnitVersion>, tenant: Uuid, day: int, knownAt: int)
  {
    && (forall unit :: unit in links <==>
          exists v :: v in versions && v.unit == unit && UnitAt(v, tenant, day, knownAt))
    && (forall v :: v in versions && UnitAt(v, tenant, day, knownAt) && v.unit in links ==> links[v.unit] == v.parent)
  }

  lemma SingleValuedInFull(versions: seq<OrganizationUnitVersion>, tenant: Uuid, day: int, knownAt: int)
    ensures SingleValuedAt(versions, tenant, day, knownAt) <==> !ShowsUnitTwice(versions, tenant, day, knownAt)
  {
    if i, j :| 0 <= i < j < |versions| && versions[i].unit == versions[j].unit
               && UnitAt(versions[i], tenant, day, knownAt) && UnitAt(versions[j], tenant, day, knownAt)
    {
      UnitOnInFull(versions, tenant, versions[i].unit, day, knownAt);
      assert |UnitOn(versions, tenant, versions[i].unit, day, knownAt)| > 1;
    }
    if unit :| |UnitOn(versions, tenant, unit, day, knownAt)| > 1 {
      UnitOnInFull(versions, tenant, unit, day, knownAt);
    }
  }

  lemma LinksInFull(versions: seq<OrganizationUnitVersion>, tenant: Uuid, day: int, knownAt: int)
    requires !ShowsUnitTwice(versions, tenant, day, knownAt)
    ensures LinksAreVisible(LinksAt(versions, tenant, day, knownAt), versions, tenant, day, knownAt)
  {
    var links := LinksAt(versions, tenant, day, knownAt);
    SingleValuedInFull(versions, tenant, day, knownAt);
    forall unit
      ensures unit in links <==> exists v :: v in versions && v.unit == unit && UnitAt(v, tenant, day, knownAt)
    {
      UnitOnInFull(versions, tenant, unit, day, knownAt);
      LinksAtMembers(versions, tenant, unit, day, knownAt);
    }
    forall v | v in versions && UnitAt(v, tenant, day, knownAt) && v.unit in links ensures links[v.unit] == v.parent {
      UnitOnInFull(versions, tenant, v.unit, day, knownAt);
      assert v in UnitOn(versions, tenant, v.unit, day, knownAt);
    }
  }

  /** The chart has no cycle exactly when some rank falls along every visible parent link. */
  lemma AcyclicInFull(links: Parents, versions: seq<OrganizationUnitVersion>, tenant: Uuid, day: int, knownAt: int)
    requires LinksAreVisible(links, versions, tenant, day, knownAt)
    ensures Acyclic(links) <==> exists rank :: FallsUpward(rank, versions, tenant, day, knownAt)
  {
    if rank :| Ranks(links, rank) {
      assert FallsUpward(rank, versions, tenant, day, knownAt);
    }
    if rank :| FallsUpward(rank, versions, tenant, day, knownAt) {
      RankOfLinks(links, rank, versions, tenant, day, knownAt);
    }
  }

  lemma RankOfLinks(
    links: Parents, rank: map<Uuid, nat>, versions: seq<OrganizationUnitVersion>, tenant: Uuid, day: int, knownAt: int)
    requires LinksAreVisible(links, versions, tenant, day, knownAt)
    requires FallsUpward(rank, versions, tenant, day, knownAt)
    ensures Acyclic(links)
  {
    var known: map<Uuid, nat> := map u | u in links :: if u in rank then rank[u] else 0;
    forall u | u in links && links[u].Some? && links[u].value in links ensures known[links[u].value] < known[u] {
      var v :| v in versions && v.unit == u && UnitAt(v, tenant, day, knownAt);
      var w :| w in versions && w.unit == links[u].value && UnitAt(w, tenant, day, knownAt);
      assert v.parent == Some(w.unit);
    }
    assert Ranks(links, known);
  }

  /** The outcome of the hierarchy check, on the visible versions alone. */
  lemma HierarchyInFull(
    outcome: Outcome, versions: seq<OrganizationUnitVersion>, tenant: Uuid, day: int, knownAt: int)
    requires HierarchyOutcomeIs(outcome, versions, tenant, day, knownAt)
    ensures (outcome ==
             if ShowsUnitTwice(versions, tenant, day, knownAt) then Fail(SingleValuedFactError)
             else if exists rank :: FallsUpward(rank, versions, tenant, day, knownAt) then Pass
             else Fail(OrganizationCycle))
  {
    SingleValuedInFull(versions, tenant, day, knownAt);
    if !ShowsUnitTwice(versions, tenant, day, knownAt) {
      LinksInFull(versions, tenant, day, knownAt);
      AcyclicInFull(LinksAt(versions, tenant, day, knownAt), versions, tenant, day, knownAt);
    }
  }
}
