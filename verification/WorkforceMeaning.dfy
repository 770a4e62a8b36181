/** When a workforce snapshot is built, and which error stops it, said on the rows of the two lists alone. */
module WorkforceMeaning {
  import opened Prelude
  import opened Errors
  import opened Facts
  import opened Resolution
  import opened Allocation
  import opened Assignment
  import opened Employment
  import opened KernelMeaning
  import opened Workforce

  ghost predicate VersionAt(v: EmploymentVersion, tenant: Uuid, day: int, knownAt: int) {
    v.tenant == tenant && v.effective.Contains(day) && v.recorded.Contains(knownAt)
  }

  /** Every visible version has a known code, and no person is in two exclusive employments. */
  ghost predicate PeopleAreExclusive(versions: seq<EmploymentVersion>, tenant: Uuid, day: int, knownAt: int) {
    && (forall v :: v in versions && VersionAt(v, tenant, day, knownAt)
                    ==> v.concurrency == "exclusive" || v.concurrency == "concurrent")
    && (forall v, w :: v in versions && w in versions
                       && VersionAt(v, tenant, day, knownAt) && VersionAt(w, tenant, day, knownAt)
                       && v.person == w.person && v.concurrency == "exclusive" && w.concurrency == "exclusive"
                       ==> v.employment == w.employment)
  }

  /** Two places of the list show one employment. */
  ghost predicate EmploymentTwice(versions: seq<EmploymentVersion>, tenant: Uuid, day: int, knownAt: int) {
    exists i, j :: 0 <= i < j < |versions| && versions[i].employment == versions[j].employment
                   && VersionAt(versions[i], tenant, day, knownAt) && VersionAt(versions[j], tenant, day, knownAt)
  }

  /** Two places of the list show one assignment. */
  ghost predicate AssignmentTwice(assignments: seq<AssignmentFact>, tenant: Uuid, day: int, knownAt: int) {
    exists i, j :: 0 <= i < j < |assignments| && assignments[i].assignment == assignments[j].assignment
                   && StaffedAt(assignments[i], tenant, day, knownAt) && StaffedAt(assignments[j], tenant, day, knownAt)
  }

  /** Each visible assignment is covered by its employment on all of its days. */
  ghost predicate AllCovered(
    versions: seq<EmploymentVersion>, assignments: seq<AssignmentFact>, tenant: Uuid, day: int, knownAt: int)
  {
    forall f :: f in assignments && StaffedAt(f, tenant, day, knownAt) ==> CoveredInFull(f, versions, knownAt)
  }

  /** Each visible ratio is above zero and at most one, and so is the load of each person in each employment. */
  ghost predicate PortfoliosWithinOne(assignments: seq<AssignmentFact>, tenant: Uuid, day: int, knownAt: int) {
    forall f :: f in assignments && StaffedAt(f, tenant, day, knownAt) ==>
      0.0 < f.ratio <= 1.0 && PortfolioLoad(assignments, tenant, f.person, f.employment, day, knownAt) <= 1.0
  }

  ghost predicate SeatsWithinOne(assignments: seq<AssignmentFact>, tenant: Uuid, day: int, knownAt: int) {
    forall f :: f in assignments && StaffedAt(f, tenant, day, knownAt) ==>
      SeatLoad(assignments, tenant, f.position, day, knownAt) <= 1.0
  }

  /** The person has a visible version of an unknown code; or, when all are known, two exclusive employments. */
  ghost predicate ExclusivityErrorOf(
    person: Uuid, e: KernelError, versions: seq<EmploymentVersion>, tenant: Uuid, day: int, knownAt: int)
  {
    if exists v :: v in versions && VersionAt(v, tenant, day, knownAt) && v.person == person
                   && v.concurrency != "exclusive" && v.concurrency != "concurrent"
    then e == UnknownConcurrencyCode
    else
      && e == ExclusiveEmploymentsOverlap
      && exists v, w :: v in versions && w in versions && v.employment != w.employment
                        && VersionAt(v, tenant, day, knownAt) && VersionAt(w, tenant, day, knownAt)
                        && v.person == person && w.person == person
                        && v.concurrency == "exclusive" && w.concurrency == "exclusive"
  }

  ghost predicate CoverageErrorOf(f: AssignmentFact, e: KernelError, versions: seq<EmploymentVersion>, knownAt: int) {
    if NamesAnother(f, versions) then e == AssignmentPersonMismatch
    else if exists day :: f.effective.Contains(day) && ShowsTwo(f, versions, day, knownAt)
    then e == ContradictoryEmployment
    else !CoveredInFull(f, versions, knownAt) && e == EmploymentNotCovered
  }

  /** The visible ratios of the person in the employment. */
  ghost predicate RatiosWithinOne(
    f: AssignmentFact, assignments: seq<AssignmentFact>, tenant: Uuid, day: int, knownAt: int)
  {
    forall g :: (g in assignments && StaffedAt(g, tenant, day, knownAt)
                 && g.person == f.person && g.employment == f.employment) ==> 0.0 < g.ratio <= 1.0
  }

  ghost predicate PortfolioErrorOf(
    f: AssignmentFact, e: KernelError, assignments: seq<AssignmentFact>, tenant: Uuid, day: int, knownAt: int)
  {
    if !RatiosWithinOne(f, assignments, tenant, day, knownAt) then e == RatioOutOfRange
    else
      && e == EmploymentOverAllocated
      && PortfolioLoad(assignments, tenant, f.person, f.employment, day, knownAt) > 1.0
  }

  lemma EmploymentTwiceIs(versions: seq<EmploymentVersion>, tenant: Uuid, day: int, knownAt: int)
    ensures VersionsSingle(versions, tenant, day, knownAt) <==> !EmploymentTwice(versions, tenant, day, knownAt)
  {
    if i, j :| 0 <= i < j < |versions| && versions[i].employment == versions[j].employment
               && VersionAt(versions[i], tenant, day, knownAt) && VersionAt(versions[j], tenant, day, knownAt)
    {
      var p := AtCoordinate(tenant, versions[i].employment, day, knownAt);
      assert p(versions[i]) && p(versions[j]);
      FilterPair(versions, p);
      assert |Reconstruct(versions, EmploymentById(), tenant, versions[i].employment, day, knownAt)| > 1;
    }
    if employment :| |Reconstruct(versions, EmploymentById(), tenant, employment, day, knownAt)| > 1 {
      var p := AtCoordinate(tenant, employment, day, knownAt);
      FilterPair(versions, p);
      var i, j :| 0 <= i < j < |versions| && p(versions[i]) && p(versions[j]);
      assert VersionAt(versions[i], tenant, day, knownAt) && VersionAt(versions[j], tenant, day, knownAt);
    }
  }

  function AssignmentAt(tenant: Uuid, day: int, knownAt: int, id: Uuid): Scope {
    (f: AssignmentFact) => AssignmentHere(tenant, day, knownAt)(f) && f.assignment == id
  }

  lemma AssignmentTwiceIs(assignments: seq<AssignmentFact>, tenant: Uuid, day: int, knownAt: int)
    ensures (AssignmentsSingle(Staffing(assignments, tenant, day, knownAt)) <==>
             !AssignmentTwice(assignments, tenant, day, knownAt))
  {
    var staffing := Staffing(assignments, tenant, day, knownAt);
    forall id
      ensures Filter(staffing, KeyIs(AssignmentId(), id)) == Filter(assignments, AssignmentAt(tenant, day, knownAt, id))
    {
      FilterTwice(assignments, AssignmentHere(tenant, day, knownAt), KeyIs(AssignmentId(), id),
                  AssignmentAt(tenant, day, knownAt, id));
    }
    if i, j :| 0 <= i < j < |assignments| && assignments[i].assignment == assignments[j].assignment
               && StaffedAt(assignments[i], tenant, day, knownAt) && StaffedAt(assignments[j], tenant, day, knownAt)
    {
      var p := AssignmentAt(tenant, day, knownAt, assignments[i].assignment);
      assert p(assignments[i]) && p(assignments[j]);
      FilterPair(assignments, p);
    }
    if id :| |Filter(staffing, KeyIs(AssignmentId(), id))| > 1 {
      var p := AssignmentAt(tenant, day, knownAt, id);
      FilterPair(assignments, p);
      var i, j :| 0 <= i < j < |assignments| && p(assignments[i]) && p(assignments[j]);
      assert StaffedAt(assignments[i], tenant, day, knownAt) && StaffedAt(assignments[j], tenant, day, knownAt);
    }
  }

  /** The capacity checks read the visible list; their totals are those of the whole list. */
  lemma LoadsOfStaffing(
    assignments: seq<AssignmentFact>, scope: Scope, tenant: Uuid, day: int, knownAt: int)
    requires forall f :: scope(f) ==> f.tenant == tenant
    ensures (Load(Staffing(assignments, tenant, day, knownAt), scope, day, knownAt) ==
             Load(assignments, scope, day, knownAt))
  {
    FilterTwice(assignments, AssignmentHere(tenant, day, knownAt), AtDay(scope, day, knownAt),
                AtDay(scope, day, knownAt));
  }

  lemma PortfolioErrorInFull(
    f: AssignmentFact, assignments: seq<AssignmentFact>, tenant: Uuid, day: int, knownAt: int)
    ensures var outcome := PortfolioOutcome(
                             Staffing(assignments, tenant, day, knownAt), tenant, f.person, f.employment, day, knownAt);
            && (forall e :: outcome == Fail(e) <==> PortfolioErrorOf(f, e, assignments, tenant, day, knownAt))
            && (outcome.Pass? <==>
                && PortfolioLoad(assignments, tenant, f.person, f.employment, day, knownAt) <= 1.0
                && RatiosWithinOne(f, assignments, tenant, day, knownAt))
  {
    var staffing := Staffing(assignments, tenant, day, knownAt);
    PortfolioInFull(staffing, tenant, f.person, f.employment, day, knownAt);
    LoadsOfStaffing(assignments, InPortfolio(tenant, f.person, f.employment), tenant, day, knownAt);
    PortfolioLoadIs(staffing, tenant, f.person, f.employment, day, knownAt);
    PortfolioLoadIs(assignments, tenant, f.person, f.employment, day, knownAt);
    forall g ensures g in staffing <==> g in assignments && StaffedAt(g, tenant, day, knownAt) {}
  }

  lemma PortfoliosInFull(assignments: seq<AssignmentFact>, tenant: Uuid, day: int, knownAt: int)
    ensures (PortfoliosFit(Staffing(assignments, tenant, day, knownAt), tenant, day, knownAt) <==>
             PortfoliosWithinOne(assignments, tenant, day, knownAt))
    ensures forall e :: PortfolioFails(e, Staffing(assignments, tenant, day, knownAt), tenant, day, knownAt) <==>
              exists f :: f in assignments && StaffedAt(f, tenant, day, knownAt)
                          && PortfolioErrorOf(f, e, assignments, tenant, day, knownAt)
  {
    var staffing := Staffing(assignments, tenant, day, knownAt);
    forall f: AssignmentFact
      ensures var outcome := PortfolioOutcome(staffing, tenant, f.person, f.employment, day, knownAt);
              && (forall e :: outcome == Fail(e) <==> PortfolioErrorOf(f, e, assignments, tenant, day, knownAt))
              && (outcome.Pass? <==>
                  && PortfolioLoad(assignments, tenant, f.person, f.employment, day, knownAt) <= 1.0
                  && RatiosWithinOne(f, assignments, tenant, day, knownAt))
    {
      PortfolioErrorInFull(f, assignments, tenant, day, knownAt);
    }
    forall f ensures f in staffing <==> f in assignments && StaffedAt(f, tenant, day, knownAt) {}
  }

  lemma SeatsInFull(assignments: seq<AssignmentFact>, tenant: Uuid, day: int, knownAt: int)
    ensures (SeatsFit(Staffing(assignments, tenant, day, knownAt), tenant, day, knownAt) <==>
             SeatsWithinOne(assignments, tenant, day, knownAt))
  {
    var staffing := Staffing(assignments, tenant, day, knownAt);
    forall f | f in staffing
      ensures (SeatOutcome(staffing, tenant, f.position, day, knownAt) ==
               if SeatLoad(assignments, tenant, f.position, day, knownAt) > 1.0 then Fail(PositionOverAllocated)
               else Pass)
    {
      SeatInFull(staffing, tenant, f.position, day, knownAt);
      LoadsOfStaffing(assignments, OnPosition(tenant, f.position), tenant, day, knownAt);
      SeatLoadIs(staffing, tenant, f.position, day, knownAt);
      SeatLoadIs(assignments, tenant, f.position, day, knownAt);
    }
    forall f ensures f in staffing <==> f in assignments && StaffedAt(f, tenant, day, knownAt) {}
  }

  /** The snapshot is built exactly when all six rules hold at the coordinate. */
  lemma BuildableInFull(
    versions: seq<EmploymentVersion>, assignments: seq<AssignmentFact>, tenant: Uuid, day: int, knownAt: int)
    ensures (Buildable(versions, assignments, tenant, day, knownAt) <==>
             && PeopleAreExclusive(versions, tenant, day, knownAt)
             && !EmploymentTwice(versions, tenant, day, knownAt)
             && !AssignmentTwice(assignments, tenant, day, knownAt)
             && AllCovered(versions, assignments, tenant, day, knownAt)
             && PortfoliosWithinOne(assignments, tenant, day, knownAt)
             && SeatsWithinOne(assignments, tenant, day, knownAt))
  {
    ExclusiveInFull(versions, tenant, day, knownAt);
    EmploymentTwiceIs(versions, tenant, day, knownAt);
    AssignmentTwiceIs(assignments, tenant, day, knownAt);
    CoverageInFull(versions, assignments, tenant, day, knownAt);
    PortfoliosInFull(assignments, tenant, day, knownAt);
    SeatsInFull(assignments, tenant, day, knownAt);
  }

  /** The error of a snapshot that is not built: one that a check of the first broken rule gives. */
  lemma FailsInFull(
    versions: seq<EmploymentVersion>, assignments: seq<AssignmentFact>, tenant: Uuid, day: int, knownAt: int,
    e: KernelError)
    ensures (FailsWith(e, versions, assignments, tenant, day, knownAt) <==>
              if !PeopleAreExclusive(versions, tenant, day, knownAt)
              then exists person :: ExclusivityErrorOf(person, e, versions, tenant, day, knownAt)
              else if EmploymentTwice(versions, tenant, day, knownAt)
                      || AssignmentTwice(assignments, tenant, day, knownAt)
              then e == SingleValuedFactError
              else if !AllCovered(versions, assignments, tenant, day, knownAt)
              then exists f :: f in assignments && StaffedAt(f, tenant, day, knownAt)
                               && CoverageErrorOf(f, e, versions, knownAt)
              else if !PortfoliosWithinOne(assignments, tenant, day, knownAt)
              then exists f :: f in assignments && StaffedAt(f, tenant, day, knownAt)
                               && PortfolioErrorOf(f, e, assignments, tenant, day, knownAt)
              else e == PositionOverAllocated)
  {
    ExclusiveInFull(versions, tenant, day, knownAt);
    ExclusivityFailsInFull(versions, tenant, day, knownAt, e);
    EmploymentTwiceIs(versions, tenant, day, knownAt);
    AssignmentTwiceIs(assignments, tenant, day, knownAt);
    CoverageInFull(versions, assignments, tenant, day, knownAt);
    PortfoliosInFull(assignments, tenant, day, knownAt);
    SeatsInFull(assignments, tenant, day, knownAt);
  }

  lemma ExclusiveInFull(versions: seq<EmploymentVersion>, tenant: Uuid, day: int, knownAt: int)
    ensures (PortfoliosExclusive(versions, tenant, day, knownAt) <==>
             PeopleAreExclusive(versions, tenant, day, knownAt))
  {
    forall v ensures Here(v, tenant, day, knownAt) <==> VersionAt(v, tenant, day, knownAt) {}
  }

  lemma ExclusivityFailsInFull(versions: seq<EmploymentVersion>, tenant: Uuid, day: int, knownAt: int, e: KernelError)
    ensures (ExclusivityFails(e, versions, tenant, day, knownAt) <==>
             exists person :: ExclusivityErrorOf(person, e, versions, tenant, day, knownAt))
  {
    var here := Filter(versions, EmploymentHere(tenant, day, knownAt));
    if person :| ValidatePersonEmploymentExclusivity(here, tenant, person, knownAt) == Fail(e) {
      ExclusivityErrorInFull(person, versions, tenant, day, knownAt);
      assert ExclusivityErrorOf(person, e, versions, tenant, day, knownAt);
    }
    if person :| ExclusivityErrorOf(person, e, versions, tenant, day, knownAt) {
      ExclusivityErrorInFull(person, versions, tenant, day, knownAt);
      assert ValidatePersonEmploymentExclusivity(here, tenant, person, knownAt) == Fail(e);
    }
  }

  lemma ExclusivityErrorInFull(
    person: Uuid, versions: seq<EmploymentVersion>, tenant: Uuid, day: int, knownAt: int)
    ensures var here := Filter(versions, EmploymentHere(tenant, day, knownAt));
            forall e :: ValidatePersonEmploymentExclusivity(here, tenant, person, knownAt) == Fail(e) <==>
                        ExclusivityErrorOf(person, e, versions, tenant, day, knownAt)
  {
    var here := Filter(versions, EmploymentHere(tenant, day, knownAt));
    forall v ensures v in here <==> v in versions && VersionAt(v, tenant, day, knownAt) {}
    ExclusivityInFull(here, tenant, person, knownAt);
  }

  lemma CoverageInFull(
    versions: seq<EmploymentVersion>, assignments: seq<AssignmentFact>, tenant: Uuid, day: int, knownAt: int)
    ensures (StaffingCovered(versions, Staffing(assignments, tenant, day, knownAt), knownAt) <==>
             AllCovered(versions, assignments, tenant, day, knownAt))
    ensures forall e :: CoverageFails(e, versions, Staffing(assignments, tenant, day, knownAt), knownAt) <==>
              exists f :: f in assignments && StaffedAt(f, tenant, day, knownAt)
                          && CoverageErrorOf(f, e, versions, knownAt)
  {
    forall f
      ensures EmploymentCovers(f, versions, knownAt) <==> CoveredInFull(f, versions, knownAt)
      ensures (forall e :: EmploymentCoverageOutcome(f, versions, knownAt) == Fail(e) <==>
                           CoverageErrorOf(f, e, versions, knownAt))
    {
      EmploymentCoverageInFull(f, versions, knownAt);
    }
    forall f ensures f in Staffing(assignments, tenant, day, knownAt) <==>
                     f in assignments && StaffedAt(f, tenant, day, knownAt) {}
  }
}
